/**
 Credits that are gone for good. A failed DATA_ACK is only logged and a failed DATA keeps
 its token, while the session and the stream stay. This module says exactly when a reader
 blocked on the window can still go on, and that the other case can be reached.
 */
module StreamWedge {
  import opened Basics
  import opened Pipe
  import opened StreamEndpoint
  import opened StreamLocal
  import opened StreamMoves
  import opened StreamSystem
  import opened StreamTheorems
  import opened StreamProgress
  import opened StreamRuns

  /** A full window of credits written off, and no teardown pending. */
  predicate Wedged(s: System, side: Role) { AtFullWindow(s, side) && !Hopeful(s, side) }

  // --- nothing is under way towards a wedged reader

  lemma NoDataNoAcks(e: End, peer: End, out: seq<Frame>, back: seq<Frame>)
    requires Credit(e, peer, out, back) && e.tokens == e.window <= e.stuck + peer.waste
    ensures Acks(back) == 0
  {
    hide CountData, Carries, Held, Acks;
  }

  lemma AckOnWire(frames: seq<Frame>)
    requires frames != [] && frames[0] == DataAck
    ensures Acks(frames) > 0
  {
  }

  lemma NotAnnounced(role: Role, e: End)
    requires LocalInv(role, e) && e.phase == Live && e.reader.AtCredit?
    ensures FinsOf(Scan(role, e.trace)) == 0
  {
    hide Shape, FinState, Scan, Advance;
  }

  /** Without a FIN from the source, none is under way or has been handled. */
  lemma NoFinUnderWay(p: Pipe)
    requires PipeInv(p) && p.src.fins == 0
    ensures !p.snk.finned && CountFins(p.snk.held) == 0
  {
    hide Faithful, Conserved, Clean, Budgeted, CountFins, CountData;
    PayloadConcat(p.snk.held, p.wire);
  }

  lemma FinAtWriter(e: End)
    requires e.writer.AtRemoteFin?
    ensures CountFins(Held(e)) > 0
  {
    var rest := Work(e.inbox) + InHand(e.hand);
    assert Held(e) == [FinItem(e.writer.origin)] + rest;
    PayloadConcat([FinItem(e.writer.origin)], rest);
    Single(FinItem(e.writer.origin));
    hide CountFins, Work;
  }

  /** So the peer of a wedged reader has no FIN to handle. */
  lemma PeerHasNoFin(role: Role, e: End, peer: End, out: seq<Frame>, back: seq<Frame>, up: bool)
    requires LocalInv(role, e) && e.phase == Live && e.reader.AtCredit? && peer.phase == Live
    requires PipeInv(PipeOf(SourceOf(role, e), SinkOf(peer), out, back, up))
    ensures !peer.remoteFin && !peer.writer.AtRemoteFin?
  {
    NotAnnounced(role, e);
    NoFinUnderWay(PipeOf(SourceOf(role, e), SinkOf(peer), out, back, up));
    hide LocalInv, PipeInv, Scan, Held, CountFins;
    if peer.writer.AtRemoteFin? { FinAtWriter(peer); }
  }

  // --- one step

  /** No credit comes back and no teardown begins. */
  predicate NoRelief(e: End, e2: End) { e2.phase == Live && !e2.writer.AtRemove? && e2.tokens == e.tokens }

  lemma NoReliefFromFrame(e: End, f: Frame, accept: bool, bind: bool, res: Result)
    requires e.phase == Live && f != DataAck && f != SynAck(false) && !e.writer.AtRemove?
    ensures NoRelief(e, Receive(e, f, accept, bind, res).e)
  {
  }

  lemma NoReliefFromAck(e: End, accept: bool, bind: bool, res: Result)
    requires e.phase == Live && !e.writer.AtRemove?
    ensures var e2 := Receive(e, DataAck, accept, bind, res).e; e2.phase == Live && !e2.writer.AtRemove?
  {
  }

  lemma NoReliefFromLoops(role: Role, a: Action, e: End)
    requires Enabled(role, a, e) && e.phase == Live && !e.writer.AtRemove?
    requires a.Enqueue? || a.StartReader? || a.WriterStart? || a.WriteOk? || a == SendAck(Ok) || a == SendFin(Ok)
             || a.Arm?
    ensures NoRelief(e, Step(role, a, e).e)
  {
  }

  lemma NoReliefFromTake(role: Role, a: Action, e: End)
    requires Enabled(role, a, e) && e.phase == Live && a.Take?
    ensures NoRelief(e, Step(role, a, e).e)
  {
    if e.inbox[0].DataItem? {} else if e.inbox[0].FinItem? {} else {}
  }

  lemma NoReliefFromEnds(role: Role, a: Action, e: End)
    requires Enabled(role, a, e) && e.phase == Live
    requires a.LocalEof? ==> !e.remoteFin
    requires a.RemoteFin? ==> !e.localFin || e.remoteFin
    requires a.LocalEof? || a.RemoteFin?
    ensures NoRelief(e, Step(role, a, e).e)
  {
  }

  /** A step of an end that does not find both its directions ended. */
  lemma NoReliefFromStep(role: Role, a: Action, e: End)
    requires Enabled(role, a, e) && Drains(a) && e.phase == Live && !e.writer.AtRemove?
    requires a.LocalEof? ==> !e.remoteFin
    requires a.RemoteFin? ==> !e.localFin || e.remoteFin
    requires a.Deliver? ==> a.frame != SynAck(false)
    ensures var e2 := Step(role, a, e).e;
            e2.phase == Live && !e2.writer.AtRemove? && ((a.Deliver? && a.frame == DataAck) || e2.tokens == e.tokens)
  {
    assert !a.WriterRemove?;
    hide Enabled, Step, Receive;
    if a.Deliver? {
      Delivers(role, a, e);
      if a.frame == DataAck {
        NoReliefFromAck(e, a.accept, a.bind, a.res);
      } else {
        NoReliefFromFrame(e, a.frame, a.accept, a.bind, a.res);
      }
    } else if a.Take? {
      NoReliefFromTake(role, a, e);
    } else if a.LocalEof? || a.RemoteFin? {
      NoReliefFromEnds(role, a, e);
    } else {
      NoReliefFromLoops(role, a, e);
    }
  }

  /** What a blocked reader says about the two ends of its own connection. */
  lemma ReaderIsNotDone(role: Role, e: End)
    requires LocalInv(role, e) && e.phase == Live && e.reader.AtCredit?
    ensures e.writer != AtLocalEof && (e.localFin ==> e.remoteFin)
  {
    hide Shape, TraceState, Scan;
  }

  lemma WriterOfStep(role: Role, a: Action, e: End)
    requires Enabled(role, a, e)
    ensures a.LocalEof? ==> e.writer == AtLocalEof
    ensures a.RemoteFin? ==> e.writer.AtRemoteFin?
  {
  }

  lemma OwnStep(role: Role, a: Action, e: End)
    requires LocalInv(role, e) && e.phase == Live && e.reader.AtCredit? && !e.writer.AtRemove?
    requires Enabled(role, a, e) && Drains(a) && (a.Deliver? ==> a.frame != SynAck(false) && a.frame != DataAck)
    ensures NoRelief(e, Step(role, a, e).e)
  {
    hide LocalInv, Enabled, Step, Drains;
    ReaderIsNotDone(role, e);
    WriterOfStep(role, a, e);
    NoReliefFromStep(role, a, e);
  }

  lemma PeerStep(role: Role, a: Action, peer: End)
    requires peer.phase == Live && !peer.writer.AtRemove? && !peer.remoteFin && !peer.writer.AtRemoteFin?
    requires Enabled(role, a, peer) && Drains(a) && (a.Deliver? ==> a.frame != SynAck(false))
    ensures Step(role, a, peer).e.phase == Live && !Step(role, a, peer).e.writer.AtRemove?
  {
    hide Enabled, Step, Drains;
    WriterOfStep(role, a, peer);
    NoReliefFromStep(role, a, peer);
  }

  lemma NoRefusals(s: System)
    requires Handshake(s) && s.b.phase == Live
    ensures SynAck(false) !in s.ab && SynAck(false) !in s.ba
  {
  }

  lemma WedgedByA(s: System, side: Role, act: Action)
    requires Inv(s) && Wedged(s, side) && CanStep(s, ByA(act)) && Drains(act)
    ensures var t := Next(s, ByA(act));
            t.a.phase == Live && !t.a.writer.AtRemove? && Mine(t, side).tokens == Mine(s, side).tokens
  {
    hide LocalInv, Handshake, PipeInv, PipeOf, SourceOf, SinkOf, Enabled, Step, Drains, Credit;
    NoRefusals(s);
    assert act.Deliver? ==> Taken(act) == [act.frame] && s.ba[0] == act.frame;
    if side == Initiator {
      CreditOf(Initiator, s.a, s.b, s.ab, s.ba);
      NoDataNoAcks(s.a, s.b, s.ab, s.ba);
      if act.Deliver? && act.frame == DataAck { AckOnWire(s.ba); }
      OwnStep(Initiator, act, s.a);
    } else {
      PeerHasNoFin(Responder, s.b, s.a, s.ba, s.ab, s.up);
      PeerStep(Initiator, act, s.a);
    }
  }

  lemma WedgedByB(s: System, side: Role, act: Action)
    requires Inv(s) && Wedged(s, side) && CanStep(s, ByB(act)) && Drains(act)
    ensures var t := Next(s, ByB(act));
            t.b.phase == Live && !t.b.writer.AtRemove? && Mine(t, side).tokens == Mine(s, side).tokens
  {
    hide LocalInv, Handshake, PipeInv, PipeOf, SourceOf, SinkOf, Enabled, Step, Drains, Credit;
    NoRefusals(s);
    assert act.Deliver? ==> Taken(act) == [act.frame] && s.ab[0] == act.frame;
    if side == Responder {
      CreditOf(Responder, s.b, s.a, s.ba, s.ab);
      NoDataNoAcks(s.b, s.a, s.ba, s.ab);
      if act.Deliver? && act.frame == DataAck { AckOnWire(s.ab); }
      OwnStep(Responder, act, s.b);
    } else {
      PeerHasNoFin(Initiator, s.a, s.b, s.ab, s.ba, s.up);
      PeerStep(Responder, act, s.b);
    }
  }

  /** Handling what is under way leaves a wedged reader wedged. */
  lemma StaysWedged(s: System, side: Role, ev: Event)
    requires Inv(s) && Wedged(s, side) && CanStep(s, ev) && DrainEvent(ev)
    ensures Wedged(Next(s, ev), side) && !Freed(Next(s, ev), side)
  {
    hide Inv, Enabled, Step, Drains, LocalInv;
    BothLocal(s);
    BlockedIsBooted(side, Mine(s, side));
    DrainingEnds(s, ev);
    if ev.ByA? { WedgedByA(s, side, ev.act); } else { WedgedByB(s, side, ev.act); }
  }

  lemma WedgedIsNotFreed(s: System, side: Role)
    requires Wedged(s, side)
    ensures !Freed(s, side)
  {
  }

  lemma {:induction false} NeverFreed(s: System, side: Role, evs: seq<Event>)
    requires Inv(s) && Wedged(s, side) && AllDrain(evs) && Run(s, evs).Some?
    ensures !Freed(Run(s, evs).value, side)
    decreases |evs|
  {
    hide Inv, Wedged, CanStep, Next, Freed, DrainEvent;
    if evs == [] {
      WedgedIsNotFreed(s, side);
    } else {
      assert DrainEvent(evs[0]);
      StaysWedged(s, side, evs[0]);
      NextInv(s, evs[0]);
      NeverFreed(Next(s, evs[0]), side, evs[1..]);
    }
  }

  // --- exactly

  /** Some run of handling what is under way brings a credit back or ends the stream. */
  ghost predicate CanGoOn(s: System, side: Role) {
    exists evs: seq<Event> :: AllDrain(evs) && Run(s, evs).Some? && Freed(Run(s, evs).value, side)
  }

  /** It does so on every such run that is long enough. */
  ghost predicate MustGoOn(s: System, side: Role) {
    forall evs: seq<Event> :: AllDrain(evs) && Run(s, evs).Some? && |evs| >= Measure(s) ==>
      exists n :: 0 < n <= |evs| && Run(s, evs[..n]).Some? && Freed(Run(s, evs[..n]).value, side)
  }

  lemma HopefulMustGoOn(s: System, side: Role)
    requires Inv(s) && Blocked(s, side)
    ensures MustGoOn(s, side)
  {
    hide Inv, Run, Freed, Blocked, AllDrain, Measure;
    forall evs: seq<Event> | AllDrain(evs) && Run(s, evs).Some? && |evs| >= Measure(s)
      ensures exists n :: 0 < n <= |evs| && Run(s, evs[..n]).Some? && Freed(Run(s, evs[..n]).value, side)
    {
      DrainingFrees(s, side, evs);
    }
  }

  lemma WedgedCannotGoOn(s: System, side: Role)
    requires Inv(s) && Wedged(s, side)
    ensures !CanGoOn(s, side)
  {
    hide Inv, Run, Freed, Wedged, AllDrain;
    forall evs: seq<Event> | AllDrain(evs) && Run(s, evs).Some?
      ensures !Freed(Run(s, evs).value, side)
    {
      NeverFreed(s, side, evs);
    }
  }

  /**
   A reader at a full window can go on, and has to, exactly when not all of its credits have
   been written off by failed sends, or one of the two ends is being torn down anyway.
   */
  lemma ProgressIsExact(s: System, side: Role)
    requires Reachable(s) && AtFullWindow(s, side)
    ensures CanGoOn(s, side) <==> Hopeful(s, side)
    ensures Hopeful(s, side) ==> MustGoOn(s, side)
  {
    ReachableInv(s);
    hide Reachable, Inv, Run, Freed, AtFullWindow, Hopeful, AllDrain, MustGoOn;
    if Hopeful(s, side) {
      BlockedReaderUnblocks(s, side);
      HopefulMustGoOn(s, side);
    } else {
      WedgedCannotGoOn(s, side);
    }
  }

  lemma NothingIsOff(role: Role, peerRole: Role, e: End, peer: End)
    requires LocalInv(role, e) && LocalInv(peerRole, peer) && Healthy(peer) && !e.mute && !peer.mute
             && !peer.writer.AtRemove?
    ensures e.stuck + peer.waste == 0
  {
    assert !peer.gap && peer.writer != WriterDone by { hide EofLast, FinState, TraceState, Pristine, Waiting; }
    hide LocalInv;
    NothingWrittenOff(role, peerRole, e, peer);
  }

  /** What a caller can check: as long as no send of the stream has failed, a reader at a full window goes on. */
  lemma QuietSendsGoOn(s: System, side: Role)
    requires Reachable(s) && AtFullWindow(s, side) && !s.a.mute && !s.b.mute
    ensures CanGoOn(s, side) && MustGoOn(s, side)
  {
    ReachableInv(s);
    assert LocalInv(Initiator, s.a) && LocalInv(Responder, s.b);
    hide Reachable, Inv, LocalInv, Healthy, CanGoOn, MustGoOn;
    if !s.a.writer.AtRemove? && !s.b.writer.AtRemove? {
      if side == Initiator {
        NothingIsOff(Initiator, Responder, s.a, s.b);
      } else {
        NothingIsOff(Responder, Initiator, s.b, s.a);
      }
    }
    ProgressIsExact(s, side);
  }

  // --- what is gone is gone, whatever happens

  /** All credits are taken, and as many are written off. */
  predicate Exhausted(p: Pipe) {
    p.src.window > 0 && !p.src.taken && p.src.tokens == p.src.window <= p.src.stuck + p.snk.waste
  }

  function Stream(s: System, side: Role): Pipe { if side == Initiator then Forward(s) else Backward(s) }

  lemma SourceIsStuck(p: Pipe, s2: Source, push: seq<Item>, n: nat)
    requires PipeInv(p) && Exhausted(p) && n <= p.acks && SourceMove(p.src, s2, push, n)
    ensures s2.sent == p.src.sent && Exhausted(p.(src := s2))
  {
    hide Faithful, Clean, Budgeted, CountData, CountFins, FinLast;
  }

  lemma SinkGivesNothingBack(p: Pipe, k2: Sink, pop: seq<Item>, n: nat)
    requires Exhausted(p) && SinkMove(p.snk, k2, pop, n)
    ensures Exhausted(p.(snk := k2))
  {
  }

  lemma ExhaustedByEnd(role: Role, act: Action, e: End, src: Source, snk: Sink, inn: seq<Frame>, out: seq<Frame>,
                       up: bool)
    requires LocalInv(role, e) && Enabled(role, act, e) && Taken(act) <= inn
             && (act.Deliver? ==> Expected(role, e, act.frame))
    requires PipeInv(PipeOf(SourceOf(role, e), snk, out, inn, up)) && PipeInv(PipeOf(src, SinkOf(e), inn, out, up))
    ensures var e2 := Step(role, act, e).e;
            && (Exhausted(PipeOf(SourceOf(role, e), snk, out, inn, up)) ==>
                  e2.sent == e.sent && forall x, y :: Exhausted(PipeOf(SourceOf(role, e2), snk, x, y, up)))
            && (Exhausted(PipeOf(src, SinkOf(e), inn, out, up)) ==>
                  forall x, y :: Exhausted(PipeOf(src, SinkOf(e2), x, y, up)))
  {
    var o := Step(role, act, e);
    hide Step, Enabled, LocalInv, Scan, Held, SourceMove, SinkMove, PipeInv, Carries, Acks, Taken, Expected;
    StepMoves(role, act, e);
    Popped(inn, Taken(act));
    var feeds, drains := PipeOf(SourceOf(role, e), snk, out, inn, up), PipeOf(src, SinkOf(e), inn, out, up);
    if Exhausted(feeds) { SourceIsStuck(feeds, SourceOf(role, o.e), Carries(o.frames), Acks(Taken(act))); }
    if Exhausted(drains) { SinkGivesNothingBack(drains, SinkOf(o.e), Carries(Taken(act)), Acks(o.frames)); }
  }

  lemma StaysExhausted(s: System, side: Role, ev: Event)
    requires Inv(s) && CanStep(s, ev) && Exhausted(Stream(s, side))
    ensures Exhausted(Stream(Next(s, ev), side)) && Mine(Next(s, ev), side).sent == Mine(s, side).sent
  {
    hide LocalInv, Handshake, PipeInv, Enabled, Step, Scan, Held, Taken, Carries, Acks, Expected;
    match ev
    case ByA(act) =>
      if act.Deliver? { ExpectedByA(s, act); }
      ExhaustedByEnd(Initiator, act, s.a, SourceOf(Responder, s.b), SinkOf(s.b), s.ba, s.ab, s.up);
    case ByB(act) =>
      if act.Deliver? { ExpectedByB(s, act); }
      ExhaustedByEnd(Responder, act, s.b, SourceOf(Initiator, s.a), SinkOf(s.a), s.ab, s.ba, s.up);
    case LinkDown =>
  }

  lemma {:induction false} ExhaustedForGood(s: System, side: Role, evs: seq<Event>)
    requires Inv(s) && Exhausted(Stream(s, side)) && Run(s, evs).Some?
    ensures Mine(Run(s, evs).value, side).sent == Mine(s, side).sent
    decreases |evs|
  {
    hide Inv, CanStep, Next, Exhausted, Stream, Mine;
    if evs != [] {
      StaysExhausted(s, side, evs[0]);
      NextInv(s, evs[0]);
      ExhaustedForGood(Next(s, evs[0]), side, evs[1..]);
    }
  }

  /** Once a full window is written off, no run whatsoever lets that side send another byte. */
  lemma LostCreditsNeverReturn(s: System, side: Role, evs: seq<Event>)
    requires Reachable(s) && AtFullWindow(s, side) && Mine(s, side).stuck + Peer(s, side).waste >= Mine(s, side).window
    requires Run(s, evs).Some?
    ensures Mine(Run(s, evs).value, side).sent == Mine(s, side).sent
  {
    hide Reachable, Inv, Run, Exhausted, Stream, AtFullWindow;
    ReachableInv(s);
    StartsExhausted(s, side);
    ExhaustedForGood(s, side, evs);
  }

  lemma StartsExhausted(s: System, side: Role)
    requires Inv(s) && AtFullWindow(s, side) && Mine(s, side).stuck + Peer(s, side).waste >= Mine(s, side).window
    ensures Exhausted(Stream(s, side))
  {
    hide LocalInv, Handshake, PipeInv, Scan, Held, Carries, Acks;
    if side == Initiator {} else {}
  }

  // --- all of this can be reached

  lemma Asks(e: End, data: Bytes)
    requires e.reader == AtRead && e.window > 0 && data != []
    ensures Goes(Initiator, e, ReadBytes(data, false), e.(reader := AtCredit(data, false), read := e.read + data))
  {
  }

  /** b has written n bytes and failed to acknowledge them. */
  function Unacked(e: End, n: nat): (r: End)
    ensures r == e.(written := r.written, trace := r.trace, mute := n > 0 || e.mute, waste := e.waste + n)
  {
    if n == 0 then e
    else var p := Unacked(e, n - 1); p.(written := p.written + [1], trace := p.trace + [DataAck], mute := true,
        waste := p.waste + 1)
  }

  lemma Written(role: Role, e: End, x: Bytes)
    requires e.writer == AtWrite(x)
    ensures Goes(role, e, WriteOk, e.(written := e.written + x, writer := AtAck))
  {
  }

  lemma AckFails(role: Role, e: End)
    requires e.writer == AtAck && e.bound
    ensures Goes(role, e, SendAck(Failed),
            e.(trace := e.trace + [DataAck], mute := true, writer := Idle, waste := e.waste + 1))
  {
  }

  lemma UnackedFirst(e: End)
    requires e.writer == Idle
    ensures Unacked(e, 1) == e.(written := e.written + [1], trace := e.trace + [DataAck], mute := true,
            waste := e.waste + 1)
  {
    assert Unacked(e, 0) == e;
  }

  /** One DATA is written, and its ACK is lost. */
  lemma LosesAck(s: System)
    requires s.up && s.a.reader == AtRead && s.a.bound && 0 < s.a.window && s.a.tokens < s.a.window && s.ab == []
    requires Unended(s.b)
    ensures Path(s, System(Handed(s.a, 1), Unacked(s.b, 1), [], s.ba, true))
  {
    var b1 := s.b.(writer := AtWrite([1]));
    var b2 := b1.(written := s.b.written + [1], writer := AtAck);
    UnackedFirst(s.b);
    Written(Responder, b1, [1]);
    AckFails(Responder, b2);
    hide Path, Goes, Handed, Unacked;
    var t := System(Handed(s.a, 1), s.b, [Data([1])], s.ba, true);
    assert [] + [Data([1])] == [Data([1])] + [] == [Data([1])];
    Hands(s, 1);
    EntersWrite(t, [1], []);
    PathTrans(s, t, t.(b := b1, ab := []));
    SilentB(s, t.(b := b1, ab := []), WriteOk, b2);
    SilentB(s, t.(b := b2, ab := []), SendAck(Failed), Unacked(s.b, 1));
  }

  lemma UnackedOnce(e: End, n: nat)
    ensures Unacked(Unacked(e, n), 1) == Unacked(e, n + 1)
  {
    assert Unacked(Unacked(e, n), 0) == Unacked(e, n);
  }

  lemma {:induction false} LosesAcks(s: System, n: nat)
    requires s.up && s.a.reader == AtRead && s.a.bound && 0 < s.a.window && s.a.tokens + n <= s.a.window && s.ab == []
    requires Unended(s.b)
    ensures Path(s, System(HandedMany(s.a, 1, n), Unacked(s.b, n), [], s.ba, true))
    decreases n
  {
    hide Path;
    if n == 0 {
      PathEmpty(s);
    } else {
      var t := System(HandedMany(s.a, 1, n - 1), Unacked(s.b, n - 1), [], s.ba, true);
      LosesAcks(s, n - 1);
      LosesAck(t);
      UnackedOnce(s.b, n - 1);
      assert HandedMany(s.a, 1, n) == Handed(t.a, 1);
      PathTrans(s, t, System(Handed(t.a, 1), Unacked(t.b, 1), [], s.ba, true));
    }
  }

  /** Every ACK of a window is lost, and one more byte is read. */
  function WedgedEnds(s: System): System
    requires s.a.reader == AtRead
  {
    var a := HandedMany(s.a, 1, s.a.window);
    System(a.(reader := AtCredit([1], false), read := a.read + [1]), Unacked(s.b, s.a.window), [], s.ba, true)
  }

  lemma Wedges(s: System)
    requires Begun(s) && s.up && s.ab == [] && Unended(s.a) && Unended(s.b) && s.a.reader == AtRead
    requires 0 < s.a.window && s.a.tokens == 0
    ensures Path(s, WedgedEnds(s))
  {
    var t := System(HandedMany(s.a, 1, s.a.window), Unacked(s.b, s.a.window), [], s.ba, true);
    Asks(t.a, [1]);
    LosesAcks(s, s.a.window);
    hide Path, Goes, HandedMany, Unacked;
    SilentA(s, t, ReadBytes([1], false), t.a.(reader := AtCredit([1], false), read := t.a.read + [1]));
  }

  predicate Fine(e: End) { Unended(e) && e.ready && !e.done }

  lemma WedgedEndsAreWedged(s: System)
    requires s.up && Fine(s.a) && Fine(s.b) && s.a.reader == AtRead && s.a.window > 0 && s.a.tokens == 0
    ensures Wedged(WedgedEnds(s), Initiator)
  {
    hide HandedMany, Unacked;
  }

  lemma SeenWedged(u: System, side: Role)
    ensures AtFullWindow(View(u, side), side) <==> AtFullWindow(u, Initiator)
    ensures Hopeful(View(u, side), side) <==> Hopeful(u, Initiator)
    ensures Mine(View(u, side), side) == u.a && Peer(View(u, side), side) == u.b
  {
    hide Healthy;
  }

  lemma FineWhenOpened(windowA: nat, capA: nat, windowB: nat, capB: nat, side: Role)
    requires capA > 0 && capB > 0
    ensures var s := View(Opened(windowA, capA, windowB, capB), side);
            && Begun(s) && s.up && s.ab == [] && s.ba == [] && Fine(s.a) && Fine(s.b) && s.a.reader == AtRead
               && s.b.reader == AtRead
            && s.a.tokens == 0 && s.b.tokens == 0 && s.a.stuck == 0 && s.b.waste == 0
            && s.a.window == if side == Initiator then windowA else windowB
  {
  }

  /** Every configuration with a window can get there. */
  lemma WedgeIsReachable(side: Role, windowA: nat, capA: nat, windowB: nat, capB: nat)
    requires capA > 0 && capB > 0 && (if side == Initiator then windowA else windowB) > 0
    ensures exists t: System :: Path(Initial(windowA, capA, windowB, capB), t) && Wedged(t, side)
  {
    var s := View(Opened(windowA, capA, windowB, capB), side);
    FineWhenOpened(windowA, capA, windowB, capB, side);
    hide Path, AtFullWindow, Hopeful, Opened, View, Initial, WedgedEnds;
    Wedges(s);
    WedgedEndsAreWedged(s);
    FromTheStart(windowA, capA, windowB, capB, side, WedgedEnds(s));
    SeenWedged(WedgedEnds(s), side);
    assert Wedged(View(WedgedEnds(s), side), side);
  }

  /**
   A pending teardown is a case of its own: here all credits are lost, but handling what is under
   way ends the stream.
   */
  lemma TeardownCanBePending(side: Role, windowA: nat, capA: nat, windowB: nat, capB: nat)
    requires capA > 0 && capB > 0 && (if side == Initiator then windowA else windowB) > 0
    ensures exists t: System ::
              && Path(Initial(windowA, capA, windowB, capB), t) && AtFullWindow(t, side) && Hopeful(t, side)
              && Mine(t, side).stuck + Peer(t, side).waste == Mine(t, side).window
  {
    var s := View(Opened(windowA, capA, windowB, capB), side);
    FineWhenOpened(windowA, capA, windowB, capB, side);
    hide Path, Opened, View, Initial;
    Wedges(s);
    WedgedEndsAreWedged(s);
    var u := FailsAfterWedge(s, WedgedEnds(s));
    FromTheStart(windowA, capA, windowB, capB, side, u);
    SeenWedged(u, side);
  }

  /** b sends a byte, and a's write of it fails. */
  lemma FailsAfterWedge(s: System, t: System) returns (u: System)
    requires s.up && Fine(s.a) && Fine(s.b) && s.a.reader == AtRead && s.b.reader == AtRead
    requires Path(s, t) && t == WedgedEnds(s)
    requires Wedged(t, Initiator) && s.ba == [] && s.a.window > 0 && (s.b.window > 0 ==> s.b.tokens < s.b.window)
    requires s.a.stuck == 0 && s.b.waste == 0
    ensures Path(s, u) && AtFullWindow(u, Initiator) && Hopeful(u, Initiator) && u.a.stuck + u.b.waste == u.a.window
  {
    hide HandedMany, Unacked;
    var t1 := System(t.a, Handed(t.b, 2), [], [Data([2])], true);
    var t2 := t1.(a := t.a.(writer := AtWrite([2])), ba := []);
    assert [] + [Data([2])] == [Data([2])];
    u := t2.(a := Failing(t2.a));
    assert StreamProgress.Open(u);
    hide Path, Handed;
    PeerHands(t, 2);
    PathTrans(s, t, t1);
    PeerEntersWrite(t1, [2]);
    PathTrans(s, t1, t2);
    FailsAtOnce(Initiator, t2.a);
    SilentA(s, t2, WriteFail(0), Failing(t2.a));
  }

  /** And a reader that is only waiting for ACKs under way is no fiction either. */
  lemma BlockedIsReachable(side: Role, windowA: nat, capA: nat, windowB: nat, capB: nat)
    requires capA > 0 && capB > 0 && (if side == Initiator then windowA else windowB) > 0
    ensures exists t: System ::
              Path(Initial(windowA, capA, windowB, capB), t) && AtFullWindow(t, side) && !t.a.mute && !t.b.mute
  {
    var s := View(Opened(windowA, capA, windowB, capB), side);
    FineWhenOpened(windowA, capA, windowB, capB, side);
    Unmuted(windowA, capA, windowB, capB, side);
    var w := s.a.window;
    var t := System(HandedMany(s.a, 1, w), s.b, s.ab + Datas(1, w), s.ba, true);
    var e := t.a.(reader := AtCredit([1], false), read := t.a.read + [1]);
    var u := t.(a := e);
    Asks(t.a, [1]);
    assert AtFullWindow(u, Initiator) && !u.a.mute && !u.b.mute;
    hide Path, Opened, Goes, HandedMany, Datas, Initial, AtFullWindow;
    HandsMany(s, 1, w);
    SilentA(s, t, ReadBytes([1], false), e);
    FromTheStart(windowA, capA, windowB, capB, side, u);
    SeenWedged(u, side);
  }

  lemma Unmuted(windowA: nat, capA: nat, windowB: nat, capB: nat, side: Role)
    ensures var s := View(Opened(windowA, capA, windowB, capB), side); !s.a.mute && !s.b.mute
  {
  }
}
