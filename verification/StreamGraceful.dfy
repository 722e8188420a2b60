/**
 The graceful end of a stream. Both connections have been read to their ends, nothing has
 failed and no tunnel is stopping: then handling what is under way, in any order, ends with
 both streams gone and every byte of both directions delivered.
 */
module StreamGraceful {
  import opened Pipe
  import opened StreamEndpoint
  import opened StreamLocal
  import opened StreamSystem
  import opened StreamGrammar
  import opened StreamTheorems
  import opened StreamProgress
  import opened StreamRuns
  import opened StreamFins
  import opened StreamEnding

  /** Handling what is under way, readLoop's own end included; nothing fails, and no timer fires. */
  predicate Handles(a: Action) { Drains(a) || a.EnqueueEof? }

  predicate HandleEvent(ev: Event) { ev != LinkDown && Handles(ev.act) }

  /** Open, read to its end, and undisturbed. */
  predicate Alive(e: End) {
    && Healthy(e) && e.ready && e.boot == Booted && (e.reader == AtEof || e.reader == ReaderDone) && !e.mute
    && !e.timer.Firing? && e.writer != AtRemove(FinFrame(FromWriteFailure))
  }

  /** Gone, its own end announced. */
  predicate Dead(e: End) {
    && e.phase == Gone && e.boot == Booted && (e.reader == AtEof || e.reader == ReaderDone) && e.writer == WriterDone
    && !e.mute && RoutedFins(e.trace) > 0
  }

  predicate Half(e: End) { Alive(e) || Dead(e) }

  // --- how much is left

  function Rest(e: End): nat { Load(e) + if e.reader == AtEof then 10 else 0 }

  function Work(s: System): nat { Rest(s.a) + Rest(s.b) + WireWeight(s.ab) + WireWeight(s.ba) }

  predicate Shorter(a: Action, e: End, o: Out) {
    Rest(o.e) + WireWeight(o.frames) < Rest(e) + WireWeight(Taken(a))
  }

  lemma EofShortens(role: Role, a: Action, e: End)
    requires Enabled(role, a, e) && a.EnqueueEof?
    ensures Shorter(a, e, Step(role, a, e))
  {
    QueueConcat(e.inbox, [EofItem]);
    OneWeighs(DataAck, EofItem);
    hide QueueWeight, WireWeight;
  }

  lemma DrainShortens(role: Role, a: Action, e: End)
    requires Healthy(e) && e.boot == Booted && Enabled(role, a, e) && Drains(a)
    ensures Shorter(a, e, Step(role, a, e))
  {
    StepDrains(role, a, e);
    hide Step, Enabled, Drains, Healthy, Load, WireWeight;
  }

  // --- one step of one end

  lemma FrameKeepsAlive(e: End, f: Frame, accept: bool, bind: bool, res: Result)
    requires Alive(e) && f != SynAck(false)
    ensures Alive(Receive(e, f, accept, bind, res).e) && Receive(e, f, accept, bind, res).e.sent == e.sent
  {
  }

  lemma LoopsKeepAlive(role: Role, a: Action, e: End)
    requires Alive(e) && Enabled(role, a, e)
    requires a.Enqueue? || a.EnqueueEof? || a.WriterStart? || a.WriteOk? || a == SendAck(Ok)
             || a == SendFin(Ok) || a.Arm?
    ensures Alive(Step(role, a, e).e) && Step(role, a, e).e.sent == e.sent
  {
  }

  lemma TakeKeepsAlive(role: Role, a: Action, e: End)
    requires Alive(e) && Enabled(role, a, e) && a.Take?
    ensures Alive(Step(role, a, e).e) && Step(role, a, e).e.sent == e.sent
  {
    if e.inbox[0].DataItem? {} else if e.inbox[0].FinItem? {} else {}
  }

  lemma EndsKeepAlive(role: Role, a: Action, e: End)
    requires Alive(e) && Enabled(role, a, e) && (a.LocalEof? || a.RemoteFin?)
    ensures Alive(Step(role, a, e).e) && Step(role, a, e).e.sent == e.sent
  {
    if a.LocalEof? {} else {}
  }

  /** Nothing but the teardown ends it. */
  lemma StaysAlive(role: Role, a: Action, e: End)
    requires LocalInv(role, e) && Alive(e) && Enabled(role, a, e) && Handles(a) && !a.WriterRemove?
    requires a.Deliver? ==> a.frame != SynAck(false)
    ensures Alive(Step(role, a, e).e) && Step(role, a, e).e.sent == e.sent
  {
    NotStarting(role, a, e);
    hide Enabled, Step, Receive, LocalInv, Alive;
    if a.Deliver? {
      Delivers(role, a, e);
      FrameKeepsAlive(e, a.frame, a.accept, a.bind, a.res);
    } else if a.Take? {
      TakeKeepsAlive(role, a, e);
    } else if a.LocalEof? || a.RemoteFin? {
      EndsKeepAlive(role, a, e);
    } else {
      LoopsKeepAlive(role, a, e);
    }
  }

  lemma NotStarting(role: Role, a: Action, e: End)
    requires LocalInv(role, e) && Alive(e) && Enabled(role, a, e)
    ensures !a.StartReader? && (a.WriterRemove? ==> e.localFin && e.remoteFin)
  {
    hide EofLast, TraceState, Pristine, Waiting;
  }

  lemma WriterRemovesAlive(role: Role, a: Action, e: End)
    requires Enabled(role, a, e) && Alive(e) && a == WriterRemove(Ok)
    ensures var e2 := Step(role, a, e).e;
            && e2.phase == Gone && e2.boot == e.boot && e2.reader == e.reader && e2.writer == WriterDone
            && e2.mute == e.mute && e2.written == e.written && e2.sent == e.sent
  {
    if e.writer.final == NoFrame {} else {}
  }

  /** The teardown announces the end, unless that has been done. */
  lemma RemovalEndsAlive(role: Role, a: Action, e: End)
    requires LocalInv(role, e) && Alive(e) && Enabled(role, a, e) && a == WriterRemove(Ok)
    ensures var e2 := Step(role, a, e).e; Dead(e2) && e2.written == e.written && e2.sent == e.sent
  {
    hide Step, Enabled, LocalInv, RoutedFins, Expected;
    WriterRemovesAlive(role, a, e);
    SecondFin(role, a, e);
    if RoutedFins(e.trace) == 0 { SilentEnding(role, a, e); }
  }

  lemma FrameLeavesDead(e: End, f: Frame, accept: bool, bind: bool, res: Result)
    requires e.phase == Gone
    ensures var o := Receive(e, f, accept, bind, res);
            o.e == e.(waste := o.e.waste) && o.frames == []
  {
    if f.Data? {} else {}
  }

  lemma DeadSteps(role: Role, a: Action, e: End)
    requires Dead(e) && Enabled(role, a, e) && Handles(a)
    ensures a.Deliver? || a.Enqueue? || a.EnqueueEof?
  {
  }

  lemma QueueLeavesDead(role: Role, a: Action, e: End)
    requires Dead(e) && Enabled(role, a, e) && (a.Enqueue? || a.EnqueueEof?)
    ensures var o := Step(role, a, e);
            Dead(o.e) && o.e.written == e.written && o.e.sent == e.sent && o.frames == []
  {
    hide RoutedFins;
  }

  /** What is left of a stream that is gone is only taken off. */
  lemma StaysDead(role: Role, a: Action, e: End)
    requires Dead(e) && Enabled(role, a, e) && Handles(a)
    ensures var o := Step(role, a, e);
            Dead(o.e) && o.e.written == e.written && o.e.sent == e.sent && Shorter(a, e, o)
  {
    DeadSteps(role, a, e);
    if a.Deliver? {
      Delivers(role, a, e);
      FrameLeavesDead(e, a.frame, a.accept, a.bind, a.res);
      OneWeighs(a.frame, EofItem);
      hide Step, Enabled, Receive, QueueWeight, WireWeight, RoutedFins;
    } else if a.Enqueue? {
      QueueLeavesDead(role, a, e);
      EnqueueShortens(role, a, e);
      hide *;
    } else {
      QueueLeavesDead(role, a, e);
      EofShortens(role, a, e);
      hide *;
    }
  }

  lemma EnqueueShortens(role: Role, a: Action, e: End)
    requires Enabled(role, a, e) && a.Enqueue?
    ensures Shorter(a, e, Step(role, a, e))
  {
    QueueConcat(e.inbox, [e.hand.value]);
    OneWeighs(DataAck, e.hand.value);
    hide QueueWeight, WireWeight;
  }

  /** An end whose peer's FIN has been handled has all of the peer's data. */
  lemma FinMeansAll(p: Pipe)
    requires PipeInv(p) && p.up && p.snk.finned && p.snk.phase == Live && !p.snk.gap && !p.snk.stopped
    ensures p.snk.written == p.src.sent
  {
    hide Payload, CountData, CountFins, FinLast, HasFin, Clean, Conserved, Budgeted, Heard;
    PayloadConcat(p.snk.held, p.wire);
    NoCountNoPayload(p.snk.held);
    NoCountNoPayload(p.wire);
    assert p.snk.written + [] + [] == p.snk.written;
  }

  lemma AliveHasAll(role: Role, e: End, peerRole: Role, peer: End, out: seq<Frame>, back: seq<Frame>)
    requires PipeInv(PipeOf(SourceOf(peerRole, peer), SinkOf(e), back, out, true))
    requires LocalInv(role, e) && Alive(e) && e.remoteFin
    ensures e.written == peer.sent
  {
    GapNeedsStop(role, e);
    assert e.writer != WriterDone by { hide EofLast, FinState, TraceState, Pristine, Waiting; }
    hide LocalInv, PipeInv, Scan, Held, Carries, Acks;
    FinMeansAll(PipeOf(SourceOf(peerRole, peer), SinkOf(e), back, out, true));
  }

  /** One handling step of either kind of end. */
  predicate Proceeds(a: Action, e: End, o: Out) {
    && Half(o.e) && o.e.sent == e.sent && Shorter(a, e, o) && SynAck(false) !in o.frames
    && (Dead(e) ==> Dead(o.e) && o.e.written == e.written)
    && (Alive(e) && Dead(o.e) ==> e.remoteFin && o.e.written == e.written)
  }

  lemma NoCallsWhileAlive(role: Role, a: Action, e: End)
    requires Alive(e) && Handles(a)
    ensures !a.SendConnect? && !a.SendSynAck? && !a.DialFailed? && e.phase == Live
  {
  }

  lemma NoRefusalSent(role: Role, a: Action, e: End)
    requires LocalInv(role, e) && Alive(e) && Enabled(role, a, e) && Handles(a)
    ensures SynAck(false) !in Step(role, a, e).frames
  {
    hide LocalInv, Enabled, Step, Alive, Handles, Receive;
    NoCallsWhileAlive(role, a, e);
    if a.Deliver? {
      Delivers(role, a, e);
      LiveIsNotCalled(e, a.accept, a.bind, a.res);
    } else if Step(role, a, e).frames != [] {
      EmitsWhenReady(role, a, e);
    }
  }

  lemma LiveIsNotCalled(e: End, accept: bool, bind: bool, res: Result)
    requires e.phase == Live
    ensures Receive(e, Connect, accept, bind, res).frames == []
  {
  }

  lemma AliveIsNotDead(e: End)
    ensures Alive(e) ==> !Dead(e)
  {
  }

  lemma HandlingShortens(role: Role, a: Action, e: End)
    requires Alive(e) && Enabled(role, a, e) && Handles(a)
    ensures Shorter(a, e, Step(role, a, e))
  {
    hide Enabled, Step, Drains, Shorter;
    if a.EnqueueEof? { EofShortens(role, a, e); } else { DrainShortens(role, a, e); }
  }

  lemma DeadProceeds(role: Role, a: Action, e: End)
    requires LocalInv(role, e) && Dead(e) && Enabled(role, a, e) && Handles(a)
    ensures Proceeds(a, e, Step(role, a, e))
  {
    assert e.phase == Gone;
    hide Enabled, Step, LocalInv, Alive, Dead, Handles, Shorter;
    AliveIsNotDead(e);
    StaysDead(role, a, e);
    GoneIsFinal(role, a, e);
  }

  lemma AliveProceeds(role: Role, a: Action, e: End)
    requires LocalInv(role, e) && Alive(e) && Enabled(role, a, e) && Handles(a)
    requires a.Deliver? ==> a.frame != SynAck(false)
    ensures Proceeds(a, e, Step(role, a, e))
  {
    assert a.WriterRemove? ==> a == WriterRemove(Ok);
    hide Enabled, Step, LocalInv, Alive, Dead, Handles, Shorter;
    AliveIsNotDead(e);
    AliveIsNotDead(Step(role, a, e).e);
    HandlingShortens(role, a, e);
    NoRefusalSent(role, a, e);
    if a.WriterRemove? {
      NotStarting(role, a, e);
      RemovalEndsAlive(role, a, e);
    } else {
      StaysAlive(role, a, e);
    }
  }

  lemma EndStep(role: Role, a: Action, e: End)
    requires LocalInv(role, e) && Half(e) && Enabled(role, a, e) && Handles(a)
    requires a.Deliver? ==> a.frame != SynAck(false)
    ensures Proceeds(a, e, Step(role, a, e))
  {
    hide Enabled, Step, LocalInv, Alive, Dead, Handles, Proceeds;
    if Dead(e) { DeadProceeds(role, a, e); } else { AliveProceeds(role, a, e); }
  }

  // --- one step of the system

  /** Each end is at the end of its connection or gone, and then has everything. */
  predicate Ending(s: System) {
    && s.up && Half(s.a) && Half(s.b) && SynAck(false) !in s.ba && SynAck(false) !in s.ab
    && (Dead(s.a) ==> s.a.written == s.b.sent) && (Dead(s.b) ==> s.b.written == s.a.sent)
  }

  lemma LeftShrinks(e: End, o: Out, a: Action, inn: seq<Frame>, out: seq<Frame>)
    requires Taken(a) <= inn && Shorter(a, e, o)
    ensures Rest(o.e) + WireWeight(inn[|Taken(a)|..]) + WireWeight(out + o.frames)
            < Rest(e) + WireWeight(inn) + WireWeight(out)
  {
    var rest := inn[|Taken(a)|..];
    assert inn == Taken(a) + rest;
    WireConcat(Taken(a), rest);
    WireConcat(out, o.frames);
    hide WireWeight, Rest, Taken;
  }

  lemma HalfIs(e: End)
    ensures Half(e) <==> Alive(e) || Dead(e)
  {
  }

  lemma TakenFrame(act: Action, inn: seq<Frame>)
    requires Taken(act) <= inn
    ensures act.Deliver? ==> act.frame in inn
    ensures forall f <- inn[|Taken(act)|..] :: f in inn
  {
    assert act.Deliver? ==> inn[0] == act.frame;
  }

  /** One end with what comes in and goes out. */
  lemma OneEnd(role: Role, act: Action, e: End, peerRole: Role, peer: End, inn: seq<Frame>, out: seq<Frame>)
    requires LocalInv(role, e) && Half(e) && Enabled(role, act, e) && Taken(act) <= inn && Handles(act)
    requires PipeInv(PipeOf(SourceOf(peerRole, peer), SinkOf(e), inn, out, true))
    requires SynAck(false) !in inn && SynAck(false) !in out && (Dead(e) ==> e.written == peer.sent)
    ensures var o := Step(role, act, e);
            var (inn2, out2) := (inn[|Taken(act)|..], out + o.frames);
            && Half(o.e) && o.e.sent == e.sent && (Dead(o.e) ==> o.e.written == peer.sent)
            && SynAck(false) !in inn2 && SynAck(false) !in out2
            && Rest(o.e) + WireWeight(inn2) + WireWeight(out2) < Rest(e) + WireWeight(inn) + WireWeight(out)
  {
    hide Enabled, Step, LocalInv, Alive, Dead, Handles, Half, Rest, WireWeight, Shorter, Taken, PipeInv, PipeOf;
    TakenFrame(act, inn);
    EndStep(role, act, e);
    LeftShrinks(e, Step(role, act, e), act, inn, out);
    HalfIs(e);
    if Alive(e) && Dead(Step(role, act, e).e) { AliveHasAll(role, e, peerRole, peer, out, inn); }
  }

  lemma EndingByA(s: System, act: Action)
    requires Inv(s) && Ending(s) && CanStep(s, ByA(act)) && Handles(act)
    ensures var t := Next(s, ByA(act)); Ending(t) && Work(t) < Work(s) && t.a.sent == s.a.sent && t.b.sent == s.b.sent
  {
    hide Inv, Enabled, Step, LocalInv, Alive, Dead, Handles, Half, Rest, WireWeight, Taken, PipeInv, PipeOf;
    hide SourceOf, SinkOf;
    BothLocal(s);
    BothPipes(s);
    OneEnd(Initiator, act, s.a, Responder, s.b, s.ba, s.ab);
  }

  lemma EndingByB(s: System, act: Action)
    requires Inv(s) && Ending(s) && CanStep(s, ByB(act)) && Handles(act)
    ensures var t := Next(s, ByB(act)); Ending(t) && Work(t) < Work(s) && t.a.sent == s.a.sent && t.b.sent == s.b.sent
  {
    hide Inv, Enabled, Step, LocalInv, Alive, Dead, Handles, Half, Rest, WireWeight, Taken, PipeInv, PipeOf;
    hide SourceOf, SinkOf;
    BothLocal(s);
    BothPipes(s);
    OneEnd(Responder, act, s.b, Initiator, s.a, s.ab, s.ba);
  }

  lemma NextEnding(s: System, ev: Event)
    requires Inv(s) && Ending(s) && CanStep(s, ev) && HandleEvent(ev)
    ensures Inv(Next(s, ev)) && Ending(Next(s, ev)) && Work(Next(s, ev)) < Work(s)
    ensures Next(s, ev).a.sent == s.a.sent && Next(s, ev).b.sent == s.b.sent
  {
    hide Inv, CanStep, Next, Ending, Handles, Work;
    NextInv(s, ev);
    if ev.ByA? { EndingByA(s, ev.act); } else { EndingByB(s, ev.act); }
  }

  // --- there is always a step

  /** Nothing to handle, and the peer's end has not come. */
  predicate OnlyWaits(e: End, inn: seq<Frame>) { Idling(e, inn) && e.reader == ReaderDone }

  lemma WaitingHasAnnounced(role: Role, e: End, inn: seq<Frame>)
    requires LocalInv(role, e) && Alive(e) && OnlyWaits(e, inn)
    ensures e.localFin && !e.remoteFin && RoutedFins(e.trace) > 0
  {
    NotBad(role, e);
    FinsAreScanned(role, e.trace);
    WaitingFlags(role, e, inn);
    hide Shape, EofLast, FinState, Scan, RoutedFins;
  }

  lemma WaitingFlags(role: Role, e: End, inn: seq<Frame>)
    requires LocalInv(role, e) && Alive(e) && OnlyWaits(e, inn)
    ensures e.localFin && !e.remoteFin
  {
    hide Shape, TraceState, Scan;
  }

  /** With nothing under way, a FIN that has been routed has been handled. */
  lemma NothingUnheard(p: Pipe)
    requires PipeInv(p) && p.up && p.snk.held == [] && p.wire == [] && p.snk.phase == Live && !p.snk.stopping
    ensures p.src.fins > 0 && !p.src.mute ==> p.snk.finned
  {
    hide Ordered, Faithful, Sized, Balance;
    assert p.snk.held + p.wire == [];
  }

  /** An end does not wait for a peer that has announced its own. */
  lemma WaitsForSilence(role: Role, e: End, peerRole: Role, peer: End, inn: seq<Frame>, out: seq<Frame>)
    requires LocalInv(role, e) && Alive(e) && OnlyWaits(e, inn) && LocalInv(peerRole, peer)
    requires PipeInv(PipeOf(SourceOf(peerRole, peer), SinkOf(e), inn, out, true))
    ensures RoutedFins(peer.trace) == 0 || peer.mute
  {
    WaitingFlags(role, e, inn);
    NotBad(peerRole, peer);
    FinsAreScanned(peerRole, peer.trace);
    assert Held(e) == [] && Carries(inn) == [];
    hide LocalInv, Scan, RoutedFins, Held, Acks, PipeInv;
    NothingUnheard(PipeOf(SourceOf(peerRole, peer), SinkOf(e), inn, out, true));
  }

  /** Some handling step of an end that is not just waiting. */
  lemma EndHandles(role: Role, e: End, inn: seq<Frame>) returns (a: Action)
    requires LocalInv(role, e) && Alive(e) && !OnlyWaits(e, inn)
    ensures Handles(a) && Enabled(role, a, e) && Taken(a) <= inn
  {
    if Idling(e, inn) {
      a := EnqueueEof;
    } else {
      a := EndMoves(role, e, inn);
    }
  }

  /** As long as one of the streams is there, something can be handled. */
  lemma SomethingLeft(s: System) returns (ev: Event)
    requires Inv(s) && Ending(s) && !(Dead(s.a) && Dead(s.b))
    ensures HandleEvent(ev) && CanStep(s, ev)
  {
    hide Inv, LocalInv, Alive, Dead, Handles, Enabled, Taken, PipeInv, PipeOf, SourceOf, SinkOf, OnlyWaits, RoutedFins;
    BothLocal(s);
    BothPipes(s);
    if Alive(s.a) && !OnlyWaits(s.a, s.ba) {
      var act := EndHandles(Initiator, s.a, s.ba);
      ev := ByA(act);
    } else if Alive(s.b) && !OnlyWaits(s.b, s.ab) {
      var act := EndHandles(Responder, s.b, s.ab);
      ev := ByB(act);
    } else {
      if Alive(s.a) {
        HasAnnounced(Responder, s.b, s.ab);
        WaitsForSilence(Initiator, s.a, Responder, s.b, s.ba, s.ab);
      } else {
        HasAnnounced(Initiator, s.a, s.ba);
        WaitsForSilence(Responder, s.b, Initiator, s.a, s.ab, s.ba);
      }
      assert false;
    }
  }

  lemma HasAnnounced(role: Role, e: End, inn: seq<Frame>)
    requires LocalInv(role, e) && (Dead(e) || (Alive(e) && OnlyWaits(e, inn)))
    ensures RoutedFins(e.trace) > 0 && !e.mute
  {
    hide LocalInv, RoutedFins, OnlyWaits;
    if Alive(e) { WaitingHasAnnounced(role, e, inn); }
  }

  // --- whole runs

  predicate AllHandle(evs: seq<Event>) { forall i :: 0 <= i < |evs| ==> HandleEvent(evs[i]) }

  lemma {:induction false} EndingRun(s: System, evs: seq<Event>)
    requires Inv(s) && Ending(s) && AllHandle(evs) && Run(s, evs).Some?
    ensures var t := Run(s, evs).value;
            && Inv(t) && Ending(t) && |evs| + Work(t) <= Work(s)
            && t.a.sent == s.a.sent && t.b.sent == s.b.sent
    decreases |evs|
  {
    hide Inv, Ending, CanStep, Next, Work, HandleEvent;
    if evs != [] {
      assert HandleEvent(evs[0]);
      NextEnding(s, evs[0]);
      EndingRun(Next(s, evs[0]), evs[1..]);
    }
  }

  /** Both connections have been read to their ends, the link is up, nothing has failed, no Stop, no timer at work. */
  predicate ReadOut(s: System) { s.up && Alive(s.a) && Alive(s.b) }

  /** Both streams gone, and each side given all that the other has sent. */
  predicate Delivered(s: System, t: System) {
    && t.a.phase == Gone && t.b.phase == Gone
    && t.b.written == t.a.sent == s.a.sent && t.a.written == t.b.sent == s.b.sent
  }

  lemma ReadOutIsEnding(s: System)
    requires Inv(s) && ReadOut(s)
    ensures Ending(s)
  {
    assert Handshake(s) && s.b.phase == Live;
    hide Inv, Handshake, Alive, Dead, LocalInv, PipeInv;
    AliveIsNotDead(s.a);
    AliveIsNotDead(s.b);
    NoRefusalUnderWay(s);
  }

  lemma NoRefusalUnderWay(s: System)
    requires Handshake(s) && s.b.phase == Live
    ensures SynAck(false) !in s.ab && SynAck(false) !in s.ba
  {
  }

  lemma EndedIsDelivered(s: System, t: System)
    requires Ending(t) && Dead(t.a) && Dead(t.b) && t.a.sent == s.a.sent && t.b.sent == s.b.sent
    ensures Delivered(s, t)
  {
  }

  /**
   Whatever the order of the handling: it comes to an end after a bounded number of steps, it
   can always go on until both streams are gone, and then every byte has been delivered.
   */
  lemma GracefulEnd(s: System, evs: seq<Event>)
    requires Reachable(s) && ReadOut(s) && AllHandle(evs) && Run(s, evs).Some?
    ensures |evs| <= Work(s)
    ensures var t := Run(s, evs).value;
            Delivered(s, t) || exists ev: Event :: HandleEvent(ev) && CanStep(t, ev)
    ensures |evs| == Work(s) ==> Delivered(s, Run(s, evs).value)
  {
    hide Reachable, Inv, Ending, ReadOut, Run, Work, AllHandle, HandleEvent, CanStep, Dead, Delivered, Next;
    ReachableInv(s);
    ReadOutIsEnding(s);
    EndingRun(s, evs);
    var t := Run(s, evs).value;
    if Dead(t.a) && Dead(t.b) {
      EndedIsDelivered(s, t);
    } else {
      var ev := SomethingLeft(t);
      NextEnding(t, ev);
    }
  }

  /** So there is such a run, and it delivers everything. */
  lemma {:induction false} EndsFrom(s: System) returns (evs: seq<Event>)
    requires Inv(s) && Ending(s)
    ensures AllHandle(evs) && Run(s, evs).Some? && Dead(Run(s, evs).value.a) && Dead(Run(s, evs).value.b)
    decreases Work(s)
  {
    hide Inv, Ending, CanStep, Next, Work, HandleEvent, Dead;
    if Dead(s.a) && Dead(s.b) {
      evs := [];
    } else {
      var ev := SomethingLeft(s);
      NextEnding(s, ev);
      var rest := EndsFrom(Next(s, ev));
      evs := [ev] + rest;
      assert evs[1..] == rest && evs[0] == ev;
    }
  }

  lemma EndsGracefully(s: System)
    requires Reachable(s) && ReadOut(s)
    ensures exists evs: seq<Event> :: AllHandle(evs) && Run(s, evs).Some? && Delivered(s, Run(s, evs).value)
  {
    hide Reachable, Inv, Ending, ReadOut, Run, Work, AllHandle, Dead, Delivered;
    ReachableInv(s);
    ReadOutIsEnding(s);
    var evs := EndsFrom(s);
    EndingRun(s, evs);
    EndedIsDelivered(s, Run(s, evs).value);
  }

  // --- such states are reached in every configuration

  lemma OpenedReadsOut(windowA: nat, capA: nat, windowB: nat, capB: nat)
    requires capA > 0 && capB > 0
    ensures var s := Opened(windowA, capA, windowB, capB);
            && Goes(Initiator, s.a, ReadEnd, s.a.(reader := AtEof))
               && Goes(Responder, s.b, ReadEnd, s.b.(reader := AtEof))
            && ReadOut(s.(a := s.a.(reader := AtEof), b := s.b.(reader := AtEof))) && s.up
  {
  }

  lemma ReadOutIsReachable(windowA: nat, capA: nat, windowB: nat, capB: nat)
    requires capA > 0 && capB > 0
    ensures exists t: System :: Path(Initial(windowA, capA, windowB, capB), t) && ReadOut(t)
  {
    var s, s0 := Opened(windowA, capA, windowB, capB), Initial(windowA, capA, windowB, capB);
    OpenedReadsOut(windowA, capA, windowB, capB);
    OpensUp(windowA, capA, windowB, capB);
    hide Path, Goes, ReadOut, Opened, Initial;
    SilentA(s0, s, ReadEnd, s.a.(reader := AtEof));
    SilentB(s0, s.(a := s.a.(reader := AtEof)), ReadEnd, s.b.(reader := AtEof));
  }
}
