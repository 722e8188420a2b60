/** Every step of an endpoint is a move of the source of one direction and of the sink of the other. */
module StreamMoves {
  import opened Basics
  import opened Pipe
  import opened StreamEndpoint
  import opened StreamLocal

  predicate SourceStays(role: Role, e: End, o: Out) {
    SourceIdle(SourceOf(role, e), SourceOf(role, o.e), [], 0) && Carries(o.frames) == []
  }

  predicate SinkStays(e: End, o: Out) {
    SinkIdle(SinkOf(e), SinkOf(o.e), [], 0) && Acks(o.frames) == 0
  }

  lemma {:induction false} WorkAppend(items: seq<Item>, i: Item)
    ensures Work(items + [i]) == Work(items) + (if i == EofItem then [] else [i])
  {
    if items != [] {
      WorkAppend(items[1..], i);
      assert (items + [i])[1..] == items[1..] + [i];
    } else {
      assert items + [i] == [i];
    }
  }

  lemma One(f: Frame)
    ensures Carries([f]) == Carried(f) && Acks([f]) == Bit(f.DataAck?)
    ensures Carries([]) == [] && Acks([]) == 0
  {
    assert [f][1..] == [];
  }

  lemma DialMoves(role: Role, a: Action, e: End)
    requires LocalInv(role, e) && Enabled(role, a, e)
    requires a.DialDone? || a.StartReader?
    ensures SourceStays(role, e, Step(role, a, e))
    ensures SinkStays(e, Step(role, a, e))
  {
    hide Scan, Advance, Work, TraceState, FinState, EofLast, Pristine, Waiting, HeldBy;
    if e.phase == Gone {} else {}
  }

  lemma SignalMoves(role: Role, a: Action, e: End)
    requires Enabled(role, a, e) && (a.SessionRemoved? || a.StopSignal?)
    ensures SourceStays(role, e, Step(role, a, e)) && SinkStays(e, Step(role, a, e))
  {
    hide Scan, HeldBy;
  }

  lemma WakeMoves(role: Role, a: Action, e: End)
    requires Enabled(role, a, e) && (a.WriterStart? || a.TimerFire?)
    ensures SourceStays(role, e, Step(role, a, e)) && SinkStays(e, Step(role, a, e))
  {
    hide Scan, Work;
  }

  lemma ReadMoves(role: Role, a: Action, e: End)
    requires Enabled(role, a, e) && (a.ReaderWake? || a.ReadBytes? || a.ReadEnd?)
    ensures SourceStays(role, e, Step(role, a, e)) && SinkStays(e, Step(role, a, e))
  {
    hide Scan, HeldBy;
  }

  lemma EndMoves(role: Role, a: Action, e: End)
    requires Enabled(role, a, e) && (a.AbortCredit? || a.DropEof?)
    ensures SourceStays(role, e, Step(role, a, e)) && SinkStays(e, Step(role, a, e))
  {
    hide Scan, HeldBy;
  }

  lemma FlagMoves(role: Role, a: Action, e: End)
    requires Enabled(role, a, e)
    requires a.LocalEof? || a.Arm?
    ensures SourceStays(role, e, Step(role, a, e))
    ensures SinkStays(e, Step(role, a, e))
  {
    hide Scan, Advance, Work;
    if e.localFin {} else {}
  }

  lemma EnqueueHeld(w: Writer, inbox: seq<Item>, i: Item)
    ensures HeldBy(w, inbox + [i], None) == HeldBy(w, inbox, None) + (if i == EofItem then [] else [i])
    ensures i != EofItem ==> HeldBy(w, inbox + [i], None) == HeldBy(w, inbox, Some(i))
  {
    WorkAppend(inbox, i);
    hide Work;
    assert HeldBy(w, inbox, None) == AtWriter(w) + Work(inbox);
  }

  lemma EnqueueMoves(role: Role, a: Action, e: End)
    requires Enabled(role, a, e) && a.Enqueue? && e.hand.value != EofItem
    ensures SourceStays(role, e, Step(role, a, e))
    ensures SinkStays(e, Step(role, a, e))
  {
    EnqueueHeld(e.writer, e.inbox, e.hand.value);
    hide Scan, HeldBy;
  }

  lemma EnqueueEofMoves(role: Role, a: Action, e: End)
    requires LocalInv(role, e) && Enabled(role, a, e)
    requires a.EnqueueEof?
    ensures SourceStays(role, e, Step(role, a, e))
    ensures SinkStays(e, Step(role, a, e))
  {
    WorkAppend(e.inbox, EofItem);
    hide Scan, Advance, Work, TraceState, FinState, EofLast, Pristine, Waiting;
  }

  lemma AcceptMoves(role: Role, a: Action, e: End)
    requires LocalInv(role, e) && Enabled(role, a, e)
    requires a.Accept?
    ensures SourceStarts(SourceOf(role, e), SourceOf(role, Step(role, a, e).e), Carries(Step(role, a, e).frames), 0)
    ensures SinkBorn(SinkOf(e), SinkOf(Step(role, a, e).e), [], 0)
    ensures Step(role, a, e).frames == []
  {
    hide Scan, Advance, Work, TraceState, FinState, EofLast, Waiting;
  }

  lemma AcquireMoves(role: Role, a: Action, e: End)
    requires LocalInv(role, e) && Enabled(role, a, e)
    requires a.Acquire?
    ensures SourceAcquires(SourceOf(role, e), SourceOf(role, Step(role, a, e).e), Carries(Step(role, a, e).frames), 0)
    ensures SinkStays(e, Step(role, a, e))
  {
    hide Scan, Advance, Work, TraceState, FinState, EofLast, Pristine, Waiting, HeldBy;
  }

  lemma DropHeld(w: Writer, inbox: seq<Item>, i: Item)
    ensures var held := HeldBy(w, inbox, Some(i));
            held != [] && held[|held| - 1] == i && held[..|held| - 1] == HeldBy(w, inbox, None)
  {
    hide Work;
  }

  lemma DropsFromHand(e: End, i: Item)
    requires e.hand == Some(i) && Closing(e)
    ensures var gap := e.gap || (e.phase == Live && i.DataItem?);
            SinkDrops(SinkOf(e), SinkOf(e.(hand := None, waste := e.waste + IsData(i), gap := gap)), [], 0)
  {
    DropHeld(e.writer, e.inbox, i);
    hide HeldBy;
  }

  lemma DropStays(role: Role, a: Action, e: End)
    requires Enabled(role, a, e) && a.DropHand?
    ensures SourceStays(role, e, Step(role, a, e)) && Step(role, a, e).frames == []
  {
    hide Scan, HeldBy;
  }

  lemma DropMoves(role: Role, a: Action, e: End)
    requires Enabled(role, a, e) && a.DropHand?
    ensures SourceStays(role, e, Step(role, a, e))
    ensures SinkDrops(SinkOf(e), SinkOf(Step(role, a, e).e), [], 0)
    ensures Step(role, a, e).frames == []
  {
    DropStays(role, a, e);
    DropsFromHand(e, e.hand.value);
    hide Scan, HeldBy, SinkOf, SourceOf, SinkDrops, SourceStays;
  }

  lemma TakeHeld(e: End, w: Writer)
    requires e.writer == Idle && e.inbox != []
    requires AtWriter(w) == [] || (AtWriter(w) == [e.inbox[0]] && e.inbox[0] != EofItem)
    ensures var first := if e.inbox[0] == EofItem then [] else [e.inbox[0]];
            HeldBy(e.writer, e.inbox, e.hand)
            == if AtWriter(w) == [] then first + HeldBy(w, e.inbox[1..], e.hand) else HeldBy(w, e.inbox[1..], e.hand)
  {
    var first := if e.inbox[0] == EofItem then [] else [e.inbox[0]];
    assert Work(e.inbox) == first + Work(e.inbox[1..]);
    hide Work;
  }

  lemma TakesData(role: Role, a: Action, e: End)
    requires Enabled(role, a, e) && a.Take? && e.conn && e.inbox[0].DataItem?
    ensures SourceStays(role, e, Step(role, a, e)) && SinkStays(e, Step(role, a, e)) && Step(role, a, e).frames == []
  {
    TakeHeld(e, AtWrite(e.inbox[0].payload));
    hide Scan, HeldBy;
  }

  lemma TakesFin(role: Role, a: Action, e: End)
    requires Enabled(role, a, e) && a.Take? && e.inbox[0].FinItem?
    ensures SourceStays(role, e, Step(role, a, e)) && SinkStays(e, Step(role, a, e)) && Step(role, a, e).frames == []
  {
    TakeHeld(e, AtRemoteFin(e.inbox[0].origin));
    hide Scan, HeldBy;
  }

  lemma TakesEof(role: Role, a: Action, e: End)
    requires Enabled(role, a, e) && a.Take? && e.inbox[0] == EofItem
    ensures SourceStays(role, e, Step(role, a, e)) && SinkStays(e, Step(role, a, e)) && Step(role, a, e).frames == []
  {
    TakeHeld(e, AtLocalEof);
    assert Held(e) == HeldBy(AtLocalEof, e.inbox[1..], e.hand);
    hide Scan, HeldBy;
  }

  lemma TakesInVain(role: Role, a: Action, e: End)
    requires Enabled(role, a, e) && a.Take? && !e.conn && e.inbox[0].DataItem?
    ensures SourceStays(role, e, Step(role, a, e)) && Step(role, a, e).frames == []
    ensures SinkFails(SinkOf(e), SinkOf(Step(role, a, e).e), [], 0)
  {
    TakeHeld(e, WriterDone);
    hide Scan, HeldBy;
  }

  lemma TakeMoves(role: Role, a: Action, e: End)
    requires Enabled(role, a, e) && a.Take?
    ensures SourceStays(role, e, Step(role, a, e))
    ensures SinkMove(SinkOf(e), SinkOf(Step(role, a, e).e), [], 0)
    ensures Step(role, a, e).frames == []
  {
    hide Scan, Step, SinkOf, SourceOf, SourceStays;
    match e.inbox[0]
    case DataItem(_) => if e.conn { TakesData(role, a, e); } else { TakesInVain(role, a, e); }
    case FinItem(_) => TakesFin(role, a, e);
    case EofItem => TakesEof(role, a, e);
  }

  lemma WriteOkMoves(role: Role, a: Action, e: End)
    requires Enabled(role, a, e)
    requires a.WriteOk?
    ensures SourceStays(role, e, Step(role, a, e))
    ensures SinkWrites(SinkOf(e), SinkOf(Step(role, a, e).e), [], 0)
    ensures Step(role, a, e).frames == []
  {
    hide Scan, Advance, Work;
    assert Held(e) == [DataItem(e.writer.payload)] + Held(Step(role, a, e).e);
  }

  lemma WriteFailMoves(role: Role, a: Action, e: End)
    requires Enabled(role, a, e)
    requires a.WriteFail?
    ensures SourceStays(role, e, Step(role, a, e))
    ensures SinkFails(SinkOf(e), SinkOf(Step(role, a, e).e), [], 0)
    ensures Step(role, a, e).frames == []
  {
    hide Scan, Advance, Work;
    assert Held(e) == [DataItem(e.writer.payload)] + Held(Step(role, a, e).e);
  }

  lemma RemoteFinMoves(role: Role, a: Action, e: End)
    requires Enabled(role, a, e)
    requires a.RemoteFin?
    ensures SourceStays(role, e, Step(role, a, e))
    ensures SinkSkipsFin(SinkOf(e), SinkOf(Step(role, a, e).e), [], 0)
    ensures Step(role, a, e).frames == []
  {
    hide Scan, Advance, Work;
    if e.remoteFin {} else {}
    assert Held(e) == [FinItem(e.writer.origin)] + Held(Step(role, a, e).e);
  }

  lemma ExitMoves(role: Role, a: Action, e: End)
    requires Enabled(role, a, e)
    requires a.WriterExit?
    ensures SourceStays(role, e, Step(role, a, e))
    ensures SinkStops(SinkOf(e), SinkOf(Step(role, a, e).e), [], 0)
    ensures Step(role, a, e).frames == []
  {
    hide Scan, Advance, Work;
  }

  lemma SendConnectMoves(role: Role, a: Action, e: End)
    requires LocalInv(role, e) && Enabled(role, a, e)
    requires a.SendConnect?
    ensures SourceStays(role, e, Step(role, a, e))
    ensures SinkStays(e, Step(role, a, e))
  {
    assert e.trace == [] && [] + [Connect] == [Connect] && e.phase == Live && e.reader == NoReader by {
      hide Scan, EofLast, FinState, TraceState, Pristine;
    }
    Routed(role, [], Connect);
    One(Connect);
    hide Scan, LocalInv, Carries, Acks, HeldBy;
    if a.session && a.res == Ok {} else {}
  }

  lemma DialFailedMoves(role: Role, a: Action, e: End)
    requires LocalInv(role, e) && Enabled(role, a, e)
    requires a.DialFailed?
    ensures SourceStays(role, e, Step(role, a, e))
    ensures SinkStays(e, Step(role, a, e))
  {
    Routed(role, e.trace, SynAck(false));
    One(SynAck(false));
    hide Scan, Work, FinState, EofLast, Carries, Acks, HeldBy;
  }

  lemma SendSynAckMoves(role: Role, a: Action, e: End)
    requires LocalInv(role, e) && Enabled(role, a, e)
    requires a.SendSynAck?
    ensures SourceStays(role, e, Step(role, a, e))
    ensures SinkStays(e, Step(role, a, e))
  {
    Routed(role, e.trace, SynAck(true));
    One(SynAck(true));
    hide Scan, Work, FinState, EofLast, Carries, Acks, HeldBy;
  }

  lemma SendAckMoves(role: Role, a: Action, e: End)
    requires LocalInv(role, e) && Enabled(role, a, e)
    requires a.SendAck?
    ensures SourceStays(role, e, Step(role, a, e))
    ensures SinkAcks(SinkOf(e), SinkOf(Step(role, a, e).e), [], Acks(Step(role, a, e).frames))
  {
    Routed(role, e.trace, DataAck);
    One(DataAck);
    hide Scan, Work, FinState, EofLast, Carries, Acks;
  }

  lemma SendFinMoves(role: Role, a: Action, e: End)
    requires LocalInv(role, e) && Enabled(role, a, e)
    requires a.SendFin?
    ensures SourceAnnounces(SourceOf(role, e), SourceOf(role, Step(role, a, e).e), Carries(Step(role, a, e).frames), 0)
            || SourceStays(role, e, Step(role, a, e))
    ensures SinkStays(e, Step(role, a, e))
  {
    Routed(role, e.trace, Fin(FromEOF));
    One(Fin(FromEOF));
    hide Scan, Work, FinState, Carries, Acks;
  }

  lemma SendingIsOpen(role: Role, e: End)
    requires LocalInv(role, e) && e.bound && e.reader.AtSend?
    ensures Scan(role, e.trace) == Open && e.phase == Live && e.reader.payload != []
  {
    hide Scan, Advance;
  }

  lemma SendRouted(role: Role, a: Action, e: End)
    requires Enabled(role, a, e) && a.SendData? && Sends(e, a.res) && e.phase == Live && e.reader.payload != []
    requires Scan(role, e.trace) == Scan(role, e.trace + [Data(e.reader.payload)]) == Open
    ensures SourceSends(SourceOf(role, e), SourceOf(role, Step(role, a, e).e), [DataItem(e.reader.payload)], 0)
  {
    hide Scan, HeldBy;
  }

  lemma SendStays(role: Role, a: Action, e: End)
    requires Enabled(role, a, e) && a.SendData? && Sends(e, a.res)
    ensures SinkStays(e, Step(role, a, e)) && Step(role, a, e).frames == [Data(e.reader.payload)]
  {
    One(Data(e.reader.payload));
    hide Scan, HeldBy, Carries, Acks;
  }

  lemma SendDataMoves(role: Role, a: Action, e: End)
    requires LocalInv(role, e) && Enabled(role, a, e)
    requires a.SendData? && Sends(e, a.res)
    ensures SourceSends(SourceOf(role, e), SourceOf(role, Step(role, a, e).e), Carries(Step(role, a, e).frames), 0)
    ensures SinkStays(e, Step(role, a, e))
  {
    hide SourceSends, SinkStays, SourceOf, Scan, LocalInv, Step;
    SendingIsOpen(role, e);
    Routed(role, e.trace, Data(e.reader.payload));
    One(Data(e.reader.payload));
    SendRouted(role, a, e);
    SendStays(role, a, e);
  }

  lemma LoseRouted(role: Role, a: Action, e: End)
    requires Enabled(role, a, e) && a.SendData? && e.bound && !Sends(e, a.res) && e.phase != Absent
    requires Scan(role, e.trace) == Scan(role, e.trace + [Data(e.reader.payload)]) == Open
    ensures SourceFails(SourceOf(role, e), SourceOf(role, Step(role, a, e).e), [], 0)
  {
    hide Scan, HeldBy;
  }

  lemma LoseRefused(role: Role, a: Action, e: End)
    requires Enabled(role, a, e) && a.SendData? && !e.bound && e.phase != Absent
    ensures SourceFails(SourceOf(role, e), SourceOf(role, Step(role, a, e).e), [], 0)
  {
    hide Scan, HeldBy;
  }

  lemma LoseStays(role: Role, a: Action, e: End)
    requires Enabled(role, a, e) && a.SendData? && !Sends(e, a.res)
    ensures SinkStays(e, Step(role, a, e)) && Step(role, a, e).frames == []
  {
    One(DataAck);
    hide Scan, HeldBy, Carries, Acks;
  }

  lemma LoseDataMoves(role: Role, a: Action, e: End)
    requires LocalInv(role, e) && Enabled(role, a, e)
    requires a.SendData? && !Sends(e, a.res)
    ensures SourceFails(SourceOf(role, e), SourceOf(role, Step(role, a, e).e), [], 0)
    ensures SinkStays(e, Step(role, a, e)) && Step(role, a, e).frames == []
  {
    assert e.phase != Absent;
    hide SourceFails, SinkStays, SourceOf, Scan, LocalInv, Step;
    LoseStays(role, a, e);
    if e.bound {
      SendingIsOpen(role, e);
      Routed(role, e.trace, Data(e.reader.payload));
      LoseRouted(role, a, e);
    } else {
      LoseRefused(role, a, e);
    }
  }

  predicate Announcing(role: Role, e: End, o: Out) {
    || SourceStays(role, e, o)
    || SourceAnnounces(SourceOf(role, e), SourceOf(role, o.e), Carries(o.frames), 0)
  }

  lemma FinRouted(role: Role, e: End, origin: Origin, res: Result)
    requires e.phase == Live && (origin == FromEOF ==> e.reader == ReaderDone)
    requires e.bound ==> FinsOf(Scan(role, e.trace + [Fin(origin)])) == FinsOf(Scan(role, e.trace)) + 1
    ensures Announcing(role, e, Remove(e, FinFrame(origin), res))
    ensures SinkStays(e, Remove(e, FinFrame(origin), res))
  {
    One(Fin(origin));
    hide Scan, Carries, Acks, HeldBy;
    var e2 := Remove(e, FinFrame(origin), res).e;
    if Sends(e, res) {
      assert SourceAnnounces(SourceOf(role, e), SourceOf(role, e2), [FinItem(origin)], 0);
    } else {
      assert SourceIdle(SourceOf(role, e), SourceOf(role, e2), [], 0);
    }
  }

  /** removeStream with a FIN. */
  lemma RemoveMoves(role: Role, e: End, origin: Origin, res: Result)
    requires LocalInv(role, e) && e.phase == Live && e.boot == Booted && FinIsDue(role, e, origin)
    ensures Announcing(role, e, Remove(e, FinFrame(origin), res))
    ensures SinkStays(e, Remove(e, FinFrame(origin), res))
  {
    Routed(role, e.trace, Fin(origin));
    hide Scan, Remove, Announcing, SinkStays;
    FinRouted(role, e, origin, res);
  }

  /** removeStream with no last frame. */
  lemma CloseQuietly(role: Role, e: End, res: Result)
    ensures SourceStays(role, e, Remove(e, NoFrame, res)) && SinkStays(e, Remove(e, NoFrame, res))
  {
    One(DataAck);
    hide Scan, Carries, Acks, HeldBy;
    if e.phase == Live {} else {}
  }

  lemma CloseMoves(role: Role, a: Action, e: End)
    requires Enabled(role, a, e)
    requires a.CloseStream?
    ensures SourceStays(role, e, Step(role, a, e))
    ensures SinkStays(e, Step(role, a, e))
  {
    hide Scan, Remove, Carries, Acks, HeldBy;
    CloseQuietly(role, e, Ok);
  }

  lemma AnyRemoveMoves(role: Role, e: End, final: Final, res: Result)
    requires LocalInv(role, e) && (final == NoFrame || final.FinFrame?)
    requires e.phase == Live && final != NoFrame ==> e.boot == Booted && FinIsDue(role, e, final.origin)
    ensures Announcing(role, e, Remove(e, final, res))
    ensures SinkStays(e, Remove(e, final, res))
  {
    if e.phase == Live && final.FinFrame? {
      RemoveMoves(role, e, final.origin, res);
    } else {
      CloseQuietly(role, e, res);
    }
    hide *;
  }

  /** Neither direction sees the timer, or which way a writer without an item stands. */
  lemma Unseen(role: Role, e: End)
    ensures SourceOf(role, e.(timer := Fired)) == SourceOf(role, e) == SourceOf(role, e.(writer := WriterDone))
    ensures SinkOf(e.(timer := Fired)) == SinkOf(e)
    ensures e.writer.AtRemove? ==> SinkOf(e.(writer := WriterDone)) == SinkOf(e).(stopped := true)
  {
    hide Scan;
  }

  /** Whoever is about to remove a stream does so with no frame or a FIN. */
  lemma RemovalIsDue(role: Role, e: End)
    requires LocalInv(role, e) && (e.writer.AtRemove? || e.timer.Firing?)
    ensures e.phase == Live ==> e.boot == Booted
    ensures e.writer.AtRemove? ==> e.writer.final == NoFrame || e.writer.final.FinFrame?
    ensures e.timer.Firing? ==> e.timer.final == NoFrame || e.timer.final == FinFrame(FromTimer)
    ensures e.phase == Live && e.writer.AtRemove? && e.writer.final.FinFrame? ==>
            FinIsDue(role, e, e.writer.final.origin)
    ensures e.phase == Live && e.timer.Firing? && e.timer.final.FinFrame? ==> FinIsDue(role, e, e.timer.final.origin)
  {
    hide Scan, Advance;
  }

  lemma TimerRemoveMoves(role: Role, a: Action, e: End)
    requires LocalInv(role, e) && Enabled(role, a, e)
    requires a.TimerRemove?
    ensures Announcing(role, e, Step(role, a, e))
    ensures SinkStays(e, Step(role, a, e))
  {
    hide Scan, Remove, SourceIdle, SourceAnnounces, SourceOf, SinkOf, LocalInv, Carries, Acks;
    RemovalIsDue(role, e);
    AnyRemoveMoves(role, e, e.timer.final, a.res);
    Unseen(role, Remove(e, e.timer.final, a.res).e);
  }

  lemma WriterRemoveMoves(role: Role, a: Action, e: End)
    requires LocalInv(role, e) && Enabled(role, a, e)
    requires a.WriterRemove?
    ensures Announcing(role, e, Step(role, a, e))
    ensures SinkStops(SinkOf(e), SinkOf(Step(role, a, e).e), [], 0)
    ensures Acks(Step(role, a, e).frames) == 0
  {
    hide Scan, Remove, SourceIdle, SourceAnnounces, SourceOf, SinkOf, LocalInv, Carries, Acks;
    RemovalIsDue(role, e);
    AnyRemoveMoves(role, e, e.writer.final, a.res);
    Unseen(role, Remove(e, e.writer.final, a.res).e);
  }

  // --- frames handed over by the transport

  lemma IsBorn(role: Role, a: Action, e: End)
    requires LocalInv(role, e) && Enabled(role, a, e) && a.Deliver? && a.frame == Connect && e.phase == Absent
             && a.accept
    ensures SourceStarts(SourceOf(role, e), SourceOf(role, Step(role, a, e).e), [], 0)
    ensures SinkBorn(SinkOf(e), SinkOf(Step(role, a, e).e), [], 0)
    ensures Step(role, a, e).frames == []
  {
    assert e.writer == NoWriter;
    hide Scan, LocalInv, Work;
  }

  lemma IsRejected(role: Role, a: Action, e: End)
    requires Enabled(role, a, e) && a.Deliver? && a.frame == Connect && e.phase == Absent && !a.accept
    requires role == Responder && e.trace == []
    ensures SourceStays(role, e, Step(role, a, e)) && SinkStays(e, Step(role, a, e))
  {
    Routed(role, e.trace, SynAck(false));
    One(SynAck(false));
    hide Scan, Carries, Acks, HeldBy;
  }

  lemma IsRepeated(role: Role, a: Action, e: End)
    requires Enabled(role, a, e) && a.Deliver? && a.frame == Connect && e.phase != Absent
    ensures SourceStays(role, e, Step(role, a, e)) && SinkStays(e, Step(role, a, e))
  {
    One(DataAck);
    hide Scan, Carries, Acks, HeldBy;
  }

  lemma DeliverConnectMoves(role: Role, a: Action, e: End)
    requires LocalInv(role, e) && Enabled(role, a, e) && a.Deliver?
    requires a.frame == Connect && role == Responder && e.trace == []
    ensures var o := Step(role, a, e);
            || (SourceStays(role, e, o) && SinkStays(e, o))
            || (o.frames == [] && SourceStarts(SourceOf(role, e), SourceOf(role, o.e), [], 0)
                && SinkBorn(SinkOf(e), SinkOf(o.e), [], 0))
  {
    hide Scan, Step, Enabled, LocalInv, SourceOf, SinkOf, SourceStays, SinkStays;
    if e.phase != Absent {
      IsRepeated(role, a, e);
    } else if a.accept {
      IsBorn(role, a, e);
    } else {
      IsRejected(role, a, e);
    }
  }

  lemma DeliverSynAckMoves(role: Role, a: Action, e: End)
    requires Enabled(role, a, e) && a.Deliver? && a.frame.SynAck?
    ensures SourceStays(role, e, Step(role, a, e)) && SinkStays(e, Step(role, a, e))
  {
    CloseQuietly(role, e, a.res);
    One(DataAck);
    hide Scan, Carries, Acks, Remove, HeldBy;
    if e.phase == Live {
      if a.frame.ok {} else {}
    } else {}
  }

  lemma DeliverAckMoves(role: Role, a: Action, e: End)
    requires Enabled(role, a, e) && a.Deliver? && a.frame == DataAck
    ensures SourceIsAcked(SourceOf(role, e), SourceOf(role, Step(role, a, e).e), [], 1)
    ensures SinkStays(e, Step(role, a, e)) && Step(role, a, e).frames == []
  {
    One(DataAck);
    hide Scan, Carries, Acks, HeldBy;
    if e.phase == Live {} else {}
  }

  lemma HandTaken(e: End, i: Item)
    requires e.hand == None
    ensures SinkOf(e.(hand := Some(i))) == SinkOf(e).(held := Held(e) + [i])
  {
    assert HeldBy(e.writer, e.inbox, None) == AtWriter(e.writer) + Work(e.inbox);
  }

  lemma DeliverDataMoves(role: Role, a: Action, e: End)
    requires Enabled(role, a, e) && a.Deliver? && a.frame.Data? && e.phase == Live
    ensures SourceStays(role, e, Step(role, a, e)) && Step(role, a, e).frames == []
    ensures SinkTakesIn(SinkOf(e), SinkOf(Step(role, a, e).e), Carried(a.frame), 0)
  {
    HandTaken(e, DataItem(a.frame.payload));
    hide Scan, HeldBy;
  }

  lemma DeliverFinMoves(role: Role, a: Action, e: End)
    requires Enabled(role, a, e) && a.Deliver? && a.frame.Fin? && e.phase == Live
    ensures SourceStays(role, e, Step(role, a, e)) && Step(role, a, e).frames == []
    ensures SinkTakesIn(SinkOf(e), SinkOf(Step(role, a, e).e), Carried(a.frame), 0)
  {
    HandTaken(e, FinItem(a.frame.origin));
    hide Scan, HeldBy;
  }

  lemma LateDataMoves(role: Role, a: Action, e: End)
    requires Enabled(role, a, e) && a.Deliver? && a.frame.Data? && e.phase != Live
    ensures SourceStays(role, e, Step(role, a, e)) && Step(role, a, e).frames == []
    ensures SinkLoses(SinkOf(e), SinkOf(Step(role, a, e).e), Carried(a.frame), 0)
  {
    hide Scan, HeldBy;
  }

  lemma LateFinMoves(role: Role, a: Action, e: End)
    requires Enabled(role, a, e) && a.Deliver? && a.frame.Fin? && e.phase != Live
    ensures SourceStays(role, e, Step(role, a, e)) && Step(role, a, e).frames == []
    ensures SinkLoses(SinkOf(e), SinkOf(Step(role, a, e).e), Carried(a.frame), 0)
  {
    hide Scan, HeldBy;
  }

  lemma DeliverItemMoves(role: Role, a: Action, e: End)
    requires Enabled(role, a, e) && a.Deliver? && (a.frame.Data? || a.frame.Fin?)
    ensures SourceStays(role, e, Step(role, a, e)) && Step(role, a, e).frames == []
    ensures SinkMove(SinkOf(e), SinkOf(Step(role, a, e).e), Carried(a.frame), 0)
  {
    hide Scan, Step, Enabled, SinkOf, SourceOf, SourceStays, Carried;
    if a.frame.Data? {
      if e.phase == Live { DeliverDataMoves(role, a, e); } else { LateDataMoves(role, a, e); }
    } else {
      if e.phase == Live { DeliverFinMoves(role, a, e); } else { LateFinMoves(role, a, e); }
    }
  }

  // --- all of them together

  predicate Moves(role: Role, e: End, a: Action, o: Out) {
    && SourceMove(SourceOf(role, e), SourceOf(role, o.e), Carries(o.frames), Acks(Taken(a)))
    && SinkMove(SinkOf(e), SinkOf(o.e), Carries(Taken(a)), Acks(o.frames))
  }

  lemma ConnectionMoves(role: Role, a: Action, e: End)
    requires LocalInv(role, e) && Enabled(role, a, e)
    requires a.Accept? || a.SendConnect? || a.DialFailed? || a.DialDone? || a.SendSynAck? || a.StartReader?
    ensures Moves(role, e, a, Step(role, a, e))
  {
    One(DataAck);
    hide Step, Enabled, LocalInv, SourceOf, SinkOf, Scan, Carries, Acks;
    match a
    case Accept => AcceptMoves(role, a, e);
    case SendConnect(_, _) => SendConnectMoves(role, a, e);
    case DialFailed(_) => DialFailedMoves(role, a, e);
    case SendSynAck(_) => SendSynAckMoves(role, a, e);
    case _ => DialMoves(role, a, e);
  }

  lemma ReadLoopMoves(role: Role, a: Action, e: End)
    requires LocalInv(role, e) && Enabled(role, a, e)
    requires a.ReaderWake? || a.ReadBytes? || a.ReadEnd? || a.AbortCredit? || a.DropEof? || a.Acquire? || a.EnqueueEof?
             || a.SendData?
    ensures Moves(role, e, a, Step(role, a, e))
  {
    One(DataAck);
    hide Step, Enabled, LocalInv, SourceOf, SinkOf, Scan, Carries, Acks;
    match a
    case Acquire => AcquireMoves(role, a, e);
    case EnqueueEof => EnqueueEofMoves(role, a, e);
    case SendData(res) => if Sends(e, res) { SendDataMoves(role, a, e); } else { LoseDataMoves(role, a, e); }
    case AbortCredit => EndMoves(role, a, e);
    case DropEof => EndMoves(role, a, e);
    case _ => ReadMoves(role, a, e);
  }

  lemma WriteLoopMoves(role: Role, a: Action, e: End)
    requires LocalInv(role, e) && Enabled(role, a, e)
    requires a.WriterExit? || a.Take? || a.WriteOk? || a.WriteFail? || a.SendAck? || a.LocalEof? || a.SendFin?
             || a.Arm? || a.RemoteFin? || a.WriterRemove?
    ensures Moves(role, e, a, Step(role, a, e))
  {
    One(DataAck);
    hide Step, Enabled, LocalInv, SourceOf, SinkOf, Scan, Carries, Acks;
    match a
    case WriterExit => ExitMoves(role, a, e);
    case Take => TakeMoves(role, a, e);
    case WriteOk => WriteOkMoves(role, a, e);
    case WriteFail(_) => WriteFailMoves(role, a, e);
    case SendAck(_) => SendAckMoves(role, a, e);
    case SendFin(_) => SendFinMoves(role, a, e);
    case RemoteFin => RemoteFinMoves(role, a, e);
    case WriterRemove(_) => WriterRemoveMoves(role, a, e);
    case _ => FlagMoves(role, a, e);
  }

  lemma HandIsWork(role: Role, e: End)
    requires LocalInv(role, e)
    ensures e.hand.Some? ==> e.hand.value != EofItem
  {
    hide Scan, Pristine, Waiting, BootOrder;
  }

  lemma QueueMoves(role: Role, a: Action, e: End)
    requires LocalInv(role, e) && Enabled(role, a, e) && (a.Enqueue? || a.DropHand?)
    ensures Moves(role, e, a, Step(role, a, e))
  {
    One(DataAck);
    HandIsWork(role, e);
    assert a.Enqueue? ==> e.hand.Some?;
    hide Step, Enabled, LocalInv, SourceOf, SinkOf, Scan, Carries, Acks;
    if a.Enqueue? { EnqueueMoves(role, a, e); } else { DropMoves(role, a, e); }
  }

  lemma OtherMoves(role: Role, a: Action, e: End)
    requires LocalInv(role, e) && Enabled(role, a, e)
    requires a.WriterStart? || a.TimerFire? || a.TimerRemove? || a.SessionRemoved? || a.CloseStream? || a.StopSignal?
    ensures Moves(role, e, a, Step(role, a, e))
  {
    One(DataAck);
    hide Step, Enabled, LocalInv, SourceOf, SinkOf, Scan, Carries, Acks;
    match a
    case TimerRemove(_) => TimerRemoveMoves(role, a, e);
    case CloseStream => CloseMoves(role, a, e);
    case WriterStart => WakeMoves(role, a, e);
    case TimerFire => WakeMoves(role, a, e);
    case _ => SignalMoves(role, a, e);
  }

  lemma DeliverCallMoves(role: Role, a: Action, e: End)
    requires LocalInv(role, e) && Enabled(role, a, e) && a.Deliver? && Expected(role, e, a.frame)
    requires a.frame == Connect || a.frame.SynAck?
    ensures Moves(role, e, a, Step(role, a, e))
  {
    hide Step, Enabled, LocalInv, SourceOf, SinkOf, Scan, Carries, Acks;
    One(a.frame);
    if a.frame == Connect { DeliverConnectMoves(role, a, e); } else { DeliverSynAckMoves(role, a, e); }
  }

  lemma DeliverMoves(role: Role, a: Action, e: End)
    requires LocalInv(role, e) && Enabled(role, a, e) && a.Deliver? && Expected(role, e, a.frame)
    ensures Moves(role, e, a, Step(role, a, e))
  {
    hide Step, Enabled, LocalInv, SourceOf, SinkOf, Scan, Carries, Acks, Expected;
    if a.frame == Connect || a.frame.SynAck? {
      DeliverCallMoves(role, a, e);
    } else {
      One(a.frame);
      if a.frame == DataAck { DeliverAckMoves(role, a, e); } else { DeliverItemMoves(role, a, e); }
    }
  }

  /** Every step is one move of each direction. */
  lemma StepMoves(role: Role, a: Action, e: End)
    requires LocalInv(role, e) && Enabled(role, a, e) && (a.Deliver? ==> Expected(role, e, a.frame))
    ensures Moves(role, e, a, Step(role, a, e))
  {
    hide Moves, Step, Enabled, LocalInv, Expected;
    if a.Deliver? {
      DeliverMoves(role, a, e);
    } else if a.Accept? || a.SendConnect? || a.DialFailed? || a.DialDone? || a.SendSynAck? || a.StartReader? {
      ConnectionMoves(role, a, e);
    } else if a.ReaderWake? || a.ReadBytes? || a.ReadEnd? || a.AbortCredit? || a.DropEof? || a.Acquire?
              || a.EnqueueEof? || a.SendData? {
      ReadLoopMoves(role, a, e);
    } else if a.Enqueue? || a.DropHand? {
      QueueMoves(role, a, e);
    } else if a.WriterStart? || a.TimerFire? || a.TimerRemove? || a.SessionRemoved? || a.CloseStream? || a.StopSignal? {
      OtherMoves(role, a, e);
    } else {
      WriteLoopMoves(role, a, e);
    }
  }
}
