/**
 Two tunnels joined by the FIFO channels of one stream: a accepts the local connection
 and sends CONNECT, b dials the target. A run is any interleaving of their steps, with
 the link going down at any moment and taking the frames under way with it.
 */
module StreamSystem {
  import opened Basics
  import opened Pipe
  import opened StreamEndpoint
  import opened StreamLocal
  import opened StreamMoves

  datatype System = System(a: End, b: End, ab: seq<Frame>, ba: seq<Frame>, up: bool)

  datatype Event = ByA(act: Action) | ByB(act: Action) | LinkDown

  function Initial(windowA: nat, capA: nat, windowB: nat, capB: nat): System {
    System(Fresh(windowA, capA), Fresh(windowB, capB), [], [], true)
  }

  predicate CanStep(s: System, ev: Event) {
    match ev
    case ByA(act) => Enabled(Initiator, act, s.a) && Taken(act) <= s.ba
    case ByB(act) => Enabled(Responder, act, s.b) && Taken(act) <= s.ab
    case LinkDown => true
  }

  function Next(s: System, ev: Event): System
    requires CanStep(s, ev)
  {
    match ev
    case ByA(act) =>
      var o := Step(Initiator, act, s.a);
      System(o.e, s.b, if s.up then s.ab + o.frames else s.ab, s.ba[|Taken(act)|..], s.up)
    case ByB(act) =>
      var o := Step(Responder, act, s.b);
      System(s.a, o.e, s.ab[|Taken(act)|..], if s.up then s.ba + o.frames else s.ba, s.up)
    case LinkDown => s.(ab := [], ba := [], up := false)
  }

  function Mine(s: System, side: Role): End { if side == Initiator then s.a else s.b }

  function Peer(s: System, side: Role): End { if side == Initiator then s.b else s.a }

  /** The bytes a's connection delivers on their way to b's connection, and back. */
  function Forward(s: System): Pipe { PipeOf(SourceOf(Initiator, s.a), SinkOf(s.b), s.ab, s.ba, s.up) }

  function Backward(s: System): Pipe { PipeOf(SourceOf(Responder, s.b), SinkOf(s.a), s.ba, s.ab, s.up) }

  function PipeOf(src: Source, snk: Sink, out: seq<Frame>, back: seq<Frame>, up: bool): Pipe {
    Pipe(src, snk, Carries(out), Acks(back), up)
  }

  /** The responder has not sent its SYN_ACK(yes). */
  predicate Unanswered(b: End) { b.boot == NoBoot || b.boot == AtDial || b.boot == AtSynAck }

  /**
   CONNECT travels alone and first; nothing else leaves a before b has answered, and b
   sends nothing before its answer. A refusal is the last thing b sends.
   */
  predicate Handshake(s: System) {
    && (s.a.boot != Booted ==> s.b.phase == Absent && s.b.trace == [] && s.ab == [] && s.ba == [])
    && (Connect in s.ab ==> s.ab == [Connect] && s.b.phase == Absent && s.b.trace == [] && s.ba == [])
    && (forall f <- s.ab :: !f.SynAck?)
    && Connect !in s.ba
    && (Unanswered(s.b) ==>
          && (s.a.phase == Live ==> !s.a.ready) && s.a.hand == None
          && (s.ba == [] || (s.ba == [SynAck(false)] && s.b.boot == NoBoot)))
    && (SynAck(false) in s.ba ==> s.b.phase != Live)
    && (!s.up ==> s.ab == [] && s.ba == [])
  }

  predicate Inv(s: System) {
    && LocalInv(Initiator, s.a) && LocalInv(Responder, s.b) && Handshake(s)
    && PipeInv(Forward(s)) && PipeInv(Backward(s))
  }

  lemma BothLocal(s: System)
    requires Inv(s)
    ensures LocalInv(Initiator, s.a) && LocalInv(Responder, s.b)
  {
    hide LocalInv, Handshake, PipeInv, PipeOf;
  }

  lemma FreshPipe(role: Role, src: End, windowB: nat, capB: nat)
    requires src == Fresh(src.window, src.cap)
    ensures PipeInv(PipeOf(SourceOf(role, src), SinkOf(Fresh(windowB, capB)), [], [], true))
  {
    hide LocalInv;
  }

  lemma InitialInv(windowA: nat, capA: nat, windowB: nat, capB: nat)
    ensures Inv(Initial(windowA, capA, windowB, capB))
  {
    hide PipeInv, PipeOf, SourceOf, SinkOf;
    FreshPipe(Initiator, Fresh(windowA, capA), windowB, capB);
    FreshPipe(Responder, Fresh(windowB, capB), windowA, capA);
  }

  /** One frame, and not one of the handshake. */
  predicate Ordinary(frames: seq<Frame>) { |frames| == 1 && frames[0] != Connect && !frames[0].SynAck? }

  lemma LoopsEmit(role: Role, a: Action, e: End)
    requires Enabled(role, a, e) && (a.SendData? || a.SendAck? || a.SendFin?) && Step(role, a, e).frames != []
    ensures e.bound && Ordinary(Step(role, a, e).frames)
  {
  }

  lemma RemovalsEmit(role: Role, a: Action, e: End)
    requires Enabled(role, a, e) && (a.WriterRemove? || a.TimerRemove?) && Step(role, a, e).frames != []
    requires a.WriterRemove? ==> !e.writer.final.RefuseFrame?
    requires a.TimerRemove? ==> !e.timer.final.RefuseFrame?
    ensures e.bound && Ordinary(Step(role, a, e).frames)
  {
  }

  lemma OthersAreSilent(role: Role, a: Action, e: End)
    requires Enabled(role, a, e) && !a.SendData? && !a.SendAck? && !a.SendFin? && !a.WriterRemove? && !a.TimerRemove?
    requires !a.Deliver? && !a.SendConnect? && !a.SendSynAck? && !a.DialFailed?
    ensures Step(role, a, e).frames == []
  {
  }

  lemma NoRefusal(role: Role, e: End)
    requires LocalInv(role, e)
    ensures e.writer.AtRemove? ==> !e.writer.final.RefuseFrame?
    ensures e.timer.Firing? ==> !e.timer.final.RefuseFrame?
  {
    hide Shape, EofLast, TraceState;
  }

  lemma SendersAreReady(role: Role, a: Action, e: End)
    requires LocalInv(role, e) && Enabled(role, a, e) && e.bound
    requires a.SendData? || a.SendAck? || a.SendFin? || a.WriterRemove? || a.TimerRemove?
    ensures e.phase == Live && e.ready
  {
    hide Scan, BootOrder, EofLast, FinState, TraceState, Pristine;
  }

  /** Besides the handshake, only a ready stream in the table gets a frame through. */
  lemma EmitsWhenReady(role: Role, a: Action, e: End)
    requires LocalInv(role, e) && Enabled(role, a, e) && Step(role, a, e).frames != []
    requires !a.Deliver? && !a.SendConnect? && !a.SendSynAck? && !a.DialFailed?
    ensures e.phase == Live && e.ready && Ordinary(Step(role, a, e).frames)
  {
    hide LocalInv, Step, Enabled, Ordinary;
    NoRefusal(role, e);
    if a.SendData? || a.SendAck? || a.SendFin? {
      LoopsEmit(role, a, e);
    } else if a.WriterRemove? || a.TimerRemove? {
      RemovalKnown(role, a, e);
      RemovalsEmit(role, a, e);
    } else {
      OthersAreSilent(role, a, e);
    }
    SendersAreReady(role, a, e);
  }

  lemma RemovalKnown(role: Role, a: Action, e: End)
    requires Enabled(role, a, e)
    ensures a.WriterRemove? ==> e.writer.AtRemove?
    ensures a.TimerRemove? ==> e.timer.Firing?
  {
  }

  lemma ReadyIsBooted(role: Role, e: End)
    requires LocalInv(role, e)
    ensures e.phase == Live && e.ready ==> e.boot == Booted
    ensures e.phase == Absent ==> e.boot == NoBoot
  {
    hide Scan, EofLast, FinState, TraceState, Pristine, Waiting;
  }

  /** The frames of the handshake itself. */
  lemma EmitsInHandshake(role: Role, a: Action, e: End)
    requires LocalInv(role, e) && Enabled(role, a, e)
    requires (a.Deliver? && Expected(role, e, a.frame)) || a.SendConnect? || a.SendSynAck? || a.DialFailed?
    ensures var o := Step(role, a, e);
            && (role == Initiator ==>
                  o.frames == [] || (a.SendConnect? && o.frames == [Connect] && e.boot == AtConnect))
            && (role == Responder ==>
                  || o.frames == []
                  || (o.frames == [SynAck(false)] && o.e.phase != Live
                      && (if a.Deliver? then a.frame == Connect && o.e.boot == NoBoot else o.e.boot == Booted))
                  || (o.frames == [SynAck(true)] && e.phase != Absent && a.SendSynAck? && o.e.boot == AtReady))
  {
    hide Scan, Advance;
  }

  // --- channels

  lemma {:induction false} CarriesConcat(x: seq<Frame>, y: seq<Frame>)
    ensures Carries(x + y) == Carries(x) + Carries(y)
  {
    hide Carried;
    if x == [] {
      assert x + y == y;
    } else {
      CarriesConcat(x[1..], y);
      var c, a, b := Carried(x[0]), Carries(x[1..]), Carries(y);
      assert (x + y)[1..] == x[1..] + y && (x + y)[0] == x[0];
      assert Carries(x + y) == c + Carries(x[1..] + y) == c + (a + b);
      assert c + (a + b) == (c + a) + b;
    }
  }

  lemma {:induction false} AcksConcat(x: seq<Frame>, y: seq<Frame>)
    ensures Acks(x + y) == Acks(x) + Acks(y)
  {
    if x == [] {
      assert x + y == y;
    } else {
      AcksConcat(x[1..], y);
      assert (x + y)[1..] == x[1..] + y && (x + y)[0] == x[0];
    }
  }

  lemma Popped(chan: seq<Frame>, head: seq<Frame>)
    requires head <= chan
    ensures Carries(chan) == Carries(head) + Carries(chan[|head|..])
    ensures Acks(chan) == Acks(head) + Acks(chan[|head|..])
  {
    assert chan == head + chan[|head|..];
    CarriesConcat(head, chan[|head|..]);
    AcksConcat(head, chan[|head|..]);
  }

  lemma KeepDown(p: Pipe)
    requires PipeInv(p)
    ensures PipeInv(p.(wire := [], acks := 0, up := false))
  {
    hide Payload, CountData, FinLast, HasFin;
    assert UnderWay(p)[..|p.snk.held|] == p.snk.held;
    FinLastPrefix(p.snk.held, p.wire);
    PayloadConcat(p.snk.held, p.wire);
    assert p.snk.held + [] == p.snk.held;
    PayloadConcat([], []);
    PayloadConcat(p.snk.held, []);
  }

  lemma FinLastPrefix(x: seq<Item>, y: seq<Item>)
    ensures FinLast(x + y) ==> FinLast(x)
    ensures HasFin(x) ==> HasFin(x + y)
  {
    assert forall i :: 0 <= i < |x| ==> (x + y)[i] == x[i];
  }

  /** A step of one end: the pipe it feeds and the pipe it drains. */
  lemma KeepPipes(feeds: Pipe, drains: Pipe, s2: Source, k2: Sink, push: seq<Item>, pop: seq<Item>, ackIn: nat,
                  ackOut: nat)
    requires PipeInv(feeds) && PipeInv(drains)
    requires ackIn <= feeds.acks && pop <= drains.wire
    requires SourceMove(feeds.src, s2, push, ackIn) && SinkMove(drains.snk, k2, pop, ackOut)
    requires push != [] ==> feeds.snk.phase != Absent
    ensures PipeInv(AfterSource(feeds, s2, push, ackIn)) && PipeInv(AfterSink(drains, k2, pop, ackOut))
  {
    hide PipeInv;
    KeepSink(drains, k2, pop, ackOut);
    if SourceSends(feeds.src, s2, push, ackIn) || SourceAnnounces(feeds.src, s2, push, ackIn) {
      KeepSends(feeds, s2, push, ackIn);
    } else {
      KeepSource(feeds, s2, push, ackIn);
    }
  }

  lemma DataOnWire(frames: seq<Frame>)
    requires frames != [] && frames[0].Data?
    ensures CountData(Carries(frames)) > 0
  {
  }

  lemma ExpectedByA(s: System, act: Action)
    requires Inv(s) && CanStep(s, ByA(act)) && act.Deliver?
    ensures Expected(Initiator, s.a, act.frame)
  {
    assert act.frame in s.ba;
    assert s.a.phase == Absent ==>
           s.a.boot != Booted by { hide EofLast, FinState, TraceState, PipeInv, Pristine, Waiting; }
    hide LocalInv, PipeInv;
  }

  lemma NoDataBeforeBirth(p: Pipe)
    requires PipeInv(p) && p.snk.phase == Absent
    ensures CountData(p.wire) == 0
  {
    hide Faithful, Clean, Conserved, Budgeted, CountData;
  }

  lemma ExpectedByB(s: System, act: Action)
    requires Inv(s) && CanStep(s, ByB(act)) && act.Deliver?
    ensures Expected(Responder, s.b, act.frame)
  {
    hide LocalInv, PipeInv, Carries, CountData, Held, Scan;
    assert act.frame in s.ab;
    if act.frame.Data? { DataOnWire(s.ab); }
    if s.b.phase == Absent { NoDataBeforeBirth(Forward(s)); }
  }

  lemma PipeFed(src: Source, s2: Source, snk: Sink, out: seq<Frame>, back: seq<Frame>, up: bool, head: seq<Frame>,
                frames: seq<Frame>)
    requires head <= back
    ensures Acks(head) <= Acks(back)
    ensures PipeOf(s2, snk, if up then out + frames else out, back[|head|..], up)
            == AfterSource(PipeOf(src, snk, out, back, up), s2, Carries(frames), Acks(head))
  {
    Popped(back, head);
    CarriesConcat(out, frames);
    hide Carries, Acks;
  }

  lemma PipeDrained(src: Source, snk: Sink, k2: Sink, out: seq<Frame>, back: seq<Frame>, up: bool, head: seq<Frame>,
                    frames: seq<Frame>)
    requires head <= out && (!up ==> back == [])
    ensures Carries(head) <= Carries(out)
    ensures PipeOf(src, k2, out[|head|..], if up then back + frames else back, up)
            == AfterSink(PipeOf(src, snk, out, back, up), k2, Carries(head), Acks(frames))
  {
    Popped(out, head);
    AcksConcat(back, frames);
    hide Carries, Acks;
  }

  /** A step of one end keeps the pipe it feeds and the pipe it drains. */
  lemma KeepEnd(role: Role, act: Action, e: End, src: Source, snk: Sink, inn: seq<Frame>, out: seq<Frame>, up: bool)
    requires LocalInv(role, e) && Enabled(role, act, e) && Taken(act) <= inn && (!up ==> out == [])
    requires act.Deliver? ==> Expected(role, e, act.frame)
    requires PipeInv(PipeOf(SourceOf(role, e), snk, out, inn, up)) && PipeInv(PipeOf(src, SinkOf(e), inn, out, up))
    requires Carries(Step(role, act, e).frames) != [] ==> snk.phase != Absent
    ensures var o := Step(role, act, e);
            var inn2, out2 := inn[|Taken(act)|..], if up then out + o.frames else out;
            && PipeInv(PipeOf(SourceOf(role, o.e), snk, out2, inn2, up))
            && PipeInv(PipeOf(src, SinkOf(o.e), inn2, out2, up))
  {
    hide Step, Enabled, LocalInv, SourceOf, SinkOf, Scan, SourceMove, SinkMove, PipeInv, Carries, Acks, Taken, Expected;
    var o := Step(role, act, e);
    StepMoves(role, act, e);
    PipeFed(SourceOf(role, e), SourceOf(role, o.e), snk, out, inn, up, Taken(act), o.frames);
    PipeDrained(src, SinkOf(e), SinkOf(o.e), inn, out, up, Taken(act), o.frames);
    KeepPipes(PipeOf(SourceOf(role, e), snk, out, inn, up), PipeOf(src, SinkOf(e), inn, out, up),
              SourceOf(role, o.e), SinkOf(o.e), Carries(o.frames), Carries(Taken(act)), Acks(Taken(act)),
                  Acks(o.frames));
  }

  lemma PipesByA(s: System, act: Action)
    requires Inv(s) && CanStep(s, ByA(act))
    requires Carries(Step(Initiator, act, s.a).frames) != [] ==> s.b.phase != Absent
    ensures PipeInv(Forward(Next(s, ByA(act)))) && PipeInv(Backward(Next(s, ByA(act))))
  {
    if act.Deliver? { ExpectedByA(s, act); }
    hide Step, Enabled, LocalInv, SourceOf, Scan, PipeOf, PipeInv, Carries, Acks, Held, Taken, Expected;
    KeepEnd(Initiator, act, s.a, SourceOf(Responder, s.b), SinkOf(s.b), s.ba, s.ab, s.up);
  }

  lemma PipesByB(s: System, act: Action)
    requires Inv(s) && CanStep(s, ByB(act))
    requires Carries(Step(Responder, act, s.b).frames) != [] ==> s.a.phase != Absent
    ensures PipeInv(Forward(Next(s, ByB(act)))) && PipeInv(Backward(Next(s, ByB(act))))
  {
    if act.Deliver? { ExpectedByB(s, act); }
    hide Step, Enabled, LocalInv, SourceOf, Scan, PipeOf, PipeInv, Carries, Acks, Held, Taken, Expected;
    KeepEnd(Responder, act, s.b, SourceOf(Initiator, s.a), SinkOf(s.a), s.ab, s.ba, s.up);
  }

  // --- the handshake

  predicate Opening(e: End, act: Action, e2: End) {
    && (e2.phase == Absent ==> e.phase == Absent)
    && (e.phase != Absent && e.boot == Booted ==> e2.boot == Booted)
    && (e.phase != Absent && e.boot == AtReady ==> e2.boot == AtReady || e2.boot == Booted)
    && (e2.phase == Live && e2.ready ==>
          (e.phase == Live && e.ready) || act.StartReader? || (act.Deliver? && act.frame == SynAck(true))
          || (act.Accept? && e.ready) || (act.Deliver? && act.frame == Connect && e.ready))
    && (e2.phase == Live && e.phase != Live ==> act.Accept? || (act.Deliver? && act.frame == Connect))
    && (Unanswered(e2) && e2.boot != e.boot ==>
          (act.DialDone? && e.boot == AtDial && e2.boot == AtSynAck) || (act.Deliver? && act.frame == Connect))
    && (e.hand == None && e2.hand != None ==> act.Deliver? && (act.frame.Data? || act.frame.Fin?))
  }

  lemma OpeningAccept(role: Role, act: Action, e: End)
    requires Enabled(role, act, e) && act.Accept?
    ensures Opening(e, act, ConnectionStep(role, act, e).e)
  {
  }

  lemma OpeningCalls(role: Role, session: bool, res: Result, e: End)
    requires Enabled(role, SendConnect(session, res), e)
    ensures Opening(e, SendConnect(session, res), ConnectionStep(role, SendConnect(session, res), e).e)
  {
  }

  lemma DialKeepsRest(e: End)
    ensures Dialled(e).phase == e.phase && Dialled(e).ready == e.ready && Dialled(e).hand == e.hand
    ensures Dialled(e).boot == if e.phase == Gone then Booted else AtSynAck
  {
  }

  lemma OpeningDials(e: End)
    requires e.boot == AtDial
    ensures Opening(e, DialDone, Dialled(e))
  {
    DialKeepsRest(e);
    hide Dialled;
  }

  lemma OpeningFails(role: Role, res: Result, e: End)
    requires Enabled(role, DialFailed(res), e)
    ensures Opening(e, DialFailed(res), ConnectionStep(role, DialFailed(res), e).e)
  {
  }

  lemma OpeningAnswers(role: Role, act: Action, e: End)
    requires Enabled(role, act, e) && (act.SendSynAck? || act.StartReader?)
    ensures Opening(e, act, ConnectionStep(role, act, e).e)
  {
  }

  lemma OpeningBoot(role: Role, act: Action, e: End)
    requires Enabled(role, act, e) && OfConnection(act)
    ensures Opening(e, act, Step(role, act, e).e)
  {
    assert Step(role, act, e) == ConnectionStep(role, act, e);
    assert act.DialDone? ==> e.boot == AtDial && ConnectionStep(role, act, e).e == Dialled(e);
    hide Step, ConnectionStep, Enabled, Opening, Dialled;
    if act.Accept? {
      OpeningAccept(role, act, e);
    } else if act.SendConnect? {
      OpeningCalls(role, act.session, act.res, e);
    } else if act.DialFailed? {
      OpeningFails(role, act.res, e);
    } else if act.DialDone? {
      OpeningDials(e);
    } else {
      OpeningAnswers(role, act, e);
    }
  }

  lemma OpeningClose(role: Role, act: Action, e: End)
    requires Enabled(role, act, e) && (act.WriterRemove? || act.TimerRemove? || act.CloseStream?)
    ensures Opening(e, act, Step(role, act, e).e)
  {
  }

  lemma OpeningReply(e: End, act: Action)
    requires act.Deliver? && act.frame.SynAck?
    ensures Opening(e, act, Receive(e, act.frame, act.accept, act.bind, act.res).e)
  {
  }

  lemma OpeningCall(e: End, act: Action)
    requires act.Deliver? && act.frame.Connect?
    ensures Opening(e, act, Receive(e, act.frame, act.accept, act.bind, act.res).e)
  {
  }

  lemma OpeningDeliver(role: Role, act: Action, e: End)
    requires Enabled(role, act, e) && act.Deliver?
    ensures Opening(e, act, Step(role, act, e).e)
  {
    hide Receive, Opening;
    match act.frame
    case Connect => OpeningCall(e, act);
    case SynAck(_) => OpeningReply(e, act);
    case _ => OpeningItem(e, act);
  }

  lemma OpeningItem(e: End, act: Action)
    requires act.Deliver? && act.frame != Connect && !act.frame.SynAck?
    ensures Opening(e, act, Receive(e, act.frame, act.accept, act.bind, act.res).e)
  {
  }

  lemma OpeningStep(role: Role, act: Action, e: End)
    requires Enabled(role, act, e)
    ensures Opening(e, act, Step(role, act, e).e)
  {
    hide Step, Enabled;
    if act.Deliver? {
      OpeningDeliver(role, act, e);
    } else if act.WriterRemove? || act.TimerRemove? || act.CloseStream? {
      OpeningClose(role, act, e);
    } else if OfConnection(act) {
      OpeningBoot(role, act, e);
    } else if act.SendData? {
      if Sends(e, act.res) { OpeningSend(role, act, e); } else { OpeningLose(role, act, e); }
    } else if OfReader(act) {
      OpeningReader(role, act, e);
    } else if act.WriterStart? || act.WriterExit? || act.Take? || act.WriteOk? || act.WriteFail? {
      OpeningWriter(role, act, e);
    } else if act.LocalEof? || act.SendFin? || act.Arm? || act.SendAck? {
      OpeningFlags(role, act, e);
    } else {
      OpeningOther(role, act, e);
    }
  }

  lemma Opens(role: Role, act: Action, e: End)
    requires LocalInv(role, e) && Enabled(role, act, e)
    ensures Opening(e, act, Step(role, act, e).e)
    ensures var e2 := Step(role, act, e).e;
            && (e.boot == Booted ==> e2.boot == Booted)
            && (e2.phase == Live && e2.ready ==>
                  (e.phase == Live && e.ready) || act.StartReader? || (act.Deliver? && act.frame == SynAck(true)))
  {
    assert e.phase == Absent ==> e.boot != Booted && !e.ready;
    hide Step, Enabled, LocalInv;
    OpeningStep(role, act, e);
    AcceptsAbsent(role, act, e);
  }

  predicate SameOpening(e: End, e2: End) {
    && e2.phase == e.phase && e2.boot == e.boot && e2.ready == e.ready
    && (e.hand == None ==> e2.hand == None)
  }

  lemma OpeningReader(role: Role, act: Action, e: End)
    requires Enabled(role, act, e) && OfReader(act) && !act.SendData?
    ensures SameOpening(e, Step(role, act, e).e)
  {
  }

  lemma OpeningSend(role: Role, act: Action, e: End)
    requires Enabled(role, act, e) && act.SendData? && Sends(e, act.res)
    ensures SameOpening(e, Step(role, act, e).e)
  {
  }

  lemma OpeningLose(role: Role, act: Action, e: End)
    requires Enabled(role, act, e) && act.SendData? && !Sends(e, act.res)
    ensures SameOpening(e, Step(role, act, e).e)
  {
  }

  lemma OpeningWriter(role: Role, act: Action, e: End)
    requires Enabled(role, act, e)
    requires act.WriterStart? || act.WriterExit? || act.Take? || act.WriteOk? || act.WriteFail?
    ensures SameOpening(e, Step(role, act, e).e)
  {
  }

  lemma OpeningFlags(role: Role, act: Action, e: End)
    requires Enabled(role, act, e)
    requires act.LocalEof? || act.SendFin? || act.Arm? || act.SendAck?
    ensures SameOpening(e, Step(role, act, e).e)
  {
  }

  lemma OpeningOther(role: Role, act: Action, e: End)
    requires Enabled(role, act, e)
    requires act.RemoteFin? || act.TimerFire? || act.SessionRemoved? || act.StopSignal? || act.Enqueue? || act.DropHand?
    ensures SameOpening(e, Step(role, act, e).e)
  {
  }

  lemma AcceptsAbsent(role: Role, act: Action, e: End)
    ensures Enabled(role, act, e) && act.Accept? ==> e.phase == Absent
    ensures Enabled(role, act, e) && act.Deliver? && act.frame == Connect && e.phase != Absent ==>
            Step(role, act, e).e == e
  {
  }

  lemma StaysUntouched(act: Action, e: End)
    requires LocalInv(Responder, e) && Enabled(Responder, act, e) && e.phase == Absent && !act.Deliver?
    ensures var o := Step(Responder, act, e); o.e.phase == Absent && o.e.trace == e.trace && o.frames == []
  {
    hide Scan, Waiting, EofLast, FinState, TraceState;
  }

  predicate CallerSends(a: End, e2: End, frames: seq<Frame>) {
    || frames == []
    || (frames == [Connect] && a.boot == AtConnect && e2.boot == Booted)
    || (a.phase == Live && a.ready && Ordinary(frames))
  }

  /** What the handshake needs to know about a step of a. */
  predicate CallerStep(s: System, e2: End, head: seq<Frame>, frames: seq<Frame>) {
    && (s.a.boot == Booted ==> e2.boot == Booted)
    && (e2.phase == Live && e2.ready ==> (s.a.phase == Live && s.a.ready) || head == [SynAck(true)])
    && (s.a.hand == None && e2.hand != None ==> head != [] && !head[0].SynAck?)
    && CallerSends(s.a, e2, frames)
  }

  predicate CalleeSends(b: End, e2: End, head: seq<Frame>, frames: seq<Frame>) {
    || frames == []
    || (frames == [SynAck(false)] && e2.phase != Live && (Unanswered(e2) ==> head == [Connect] && e2.boot == NoBoot))
    || (frames == [SynAck(true)] && e2.phase != Absent && !Unanswered(e2))
    || (b.phase == Live && !Unanswered(e2) && Ordinary(frames))
  }

  predicate CalleeStep(s: System, e2: End, head: seq<Frame>, frames: seq<Frame>) {
    && (e2.phase == Absent ==> s.b.phase == Absent)
    && (s.b.phase == Absent && head == [] ==> e2.phase == Absent && e2.trace == s.b.trace && frames == [])
    && (Unanswered(e2) && e2.boot != s.b.boot ==> (s.b.boot == AtDial && e2.boot == AtSynAck) || head == [Connect])
    && (e2.phase == Live && s.b.phase != Live ==> head == [Connect])
    && CalleeSends(s.b, e2, head, frames)
  }

  lemma HandshakeByA(s: System, e2: End, head: seq<Frame>, frames: seq<Frame>)
    requires Handshake(s) && head <= s.ba && |head| <= 1 && CallerStep(s, e2, head, frames)
    requires s.b.phase == Absent ==> s.b.boot == NoBoot
    ensures Handshake(System(e2, s.b, if s.up then s.ab + frames else s.ab, s.ba[|head|..], s.up))
    ensures frames != [] && frames != [Connect] ==> s.b.phase != Absent
  {
    if head != [] { assert head[0] in s.ba; }
    assert forall f <- s.ba[|head|..] :: f in s.ba;
  }

  lemma HandshakeByB(s: System, e2: End, head: seq<Frame>, frames: seq<Frame>)
    requires Handshake(s) && head <= s.ab && |head| <= 1 && CalleeStep(s, e2, head, frames)
    requires s.b.phase == Absent ==> s.b.boot == NoBoot
    ensures Handshake(System(s.a, e2, s.ab[|head|..], if s.up then s.ba + frames else s.ba, s.up))
    ensures frames != [] ==> s.a.boot == Booted
  {
    assert forall f <- s.ab[|head|..] :: f in s.ab;
    if head != [] { assert head[0] in s.ab; }
  }

  lemma NoDial(act: Action, e: End)
    requires LocalInv(Initiator, e) && Enabled(Initiator, act, e)
    ensures !act.DialDone? && !act.DialFailed? && !act.SendSynAck? && !act.StartReader?
  {
    hide Scan, EofLast, FinState, TraceState, Pristine, Waiting;
  }

  lemma Calling(act: Action, e: End)
    requires LocalInv(Initiator, e) && Enabled(Initiator, act, e)
             && (act.Deliver? ==> Expected(Initiator, e, act.frame))
    ensures var o := Step(Initiator, act, e); CallerSends(e, o.e, o.frames)
  {
    var o := Step(Initiator, act, e);
    hide Scan, LocalInv, Step, Enabled, Expected;
    NoDial(act, e);
    if act.Deliver? || act.SendConnect? {
      EmitsInHandshake(Initiator, act, e);
      if o.frames != [] { PhasesAfterConnect(act, e); }
    } else if o.frames != [] {
      EmitsWhenReady(Initiator, act, e);
    }
  }

  lemma CallerSteps(s: System, act: Action)
    requires Inv(s) && CanStep(s, ByA(act))
    ensures var o := Step(Initiator, act, s.a); CallerStep(s, o.e, Taken(act), o.frames)
  {
    hide LocalInv, PipeInv, PipeOf, SourceOf, SinkOf, Step, Enabled, Handshake, Expected, CallerSends;
    if act.Deliver? { ExpectedByA(s, act); }
    NoDial(act, s.a);
    Opens(Initiator, act, s.a);
    Calling(act, s.a);
  }

  lemma PhasesAfterConnect(act: Action, e: End)
    requires Enabled(Initiator, act, e) && act.SendConnect?
    ensures Step(Initiator, act, e).e.boot == Booted
  {
  }

  /** What b sends, and whether it has answered by then. */
  lemma Answering(act: Action, e: End)
    requires LocalInv(Responder, e) && Enabled(Responder, act, e)
             && (act.Deliver? ==> Expected(Responder, e, act.frame))
    ensures var o := Step(Responder, act, e); CalleeSends(e, o.e, Taken(act), o.frames)
  {
    var o := Step(Responder, act, e);
    assert !act.SendConnect? by { hide Scan, EofLast, FinState, TraceState, Pristine, Waiting; }
    hide Scan, LocalInv, Step, Enabled, Expected;
    Opens(Responder, act, e);
    ReadyIsBooted(Responder, e);
    if act.Deliver? || act.SendSynAck? || act.DialFailed? {
      EmitsInHandshake(Responder, act, e);
    } else if o.frames != [] {
      EmitsWhenReady(Responder, act, e);
    }
  }

  lemma CalleeSteps(s: System, act: Action)
    requires Inv(s) && CanStep(s, ByB(act))
    ensures var o := Step(Responder, act, s.b); CalleeStep(s, o.e, Taken(act), o.frames)
  {
    if act.Deliver? { ExpectedByB(s, act); }
    hide Scan, LocalInv, PipeInv, PipeOf, SourceOf, SinkOf, Step, Enabled, Handshake, Expected, CalleeSends;
    Opens(Responder, act, s.b);
    Answering(act, s.b);
    if s.b.phase == Absent && !act.Deliver? { StaysUntouched(act, s.b); }
    assert !act.Accept? by { NoAccept(act, s.b); }
  }

  lemma NoAccept(act: Action, e: End)
    ensures act.Accept? ==> !Enabled(Responder, act, e)
  {
  }

  // --- every step of the system keeps the invariant

  lemma NextByA(s: System, act: Action)
    requires Inv(s) && CanStep(s, ByA(act))
    ensures Inv(Next(s, ByA(act)))
  {
    if act.Deliver? { ExpectedByA(s, act); }
    var o := Step(Initiator, act, s.a);
    One(Connect);
    hide Scan, LocalInv, PipeInv, Step, Enabled, Handshake, Expected, Forward, Backward, Carries;
    StepKeeps(Initiator, act, s.a);
    CallerSteps(s, act);
    HandshakeByA(s, o.e, Taken(act), o.frames);
    PipesByA(s, act);
  }

  lemma NextByB(s: System, act: Action)
    requires Inv(s) && CanStep(s, ByB(act))
    ensures Inv(Next(s, ByB(act)))
  {
    if act.Deliver? { ExpectedByB(s, act); }
    assert s.a.phase == Absent ==> s.a.boot != Booted;
    var o := Step(Responder, act, s.b);
    One(Connect);
    hide Scan, LocalInv, PipeInv, Step, Enabled, Handshake, Expected, Forward, Backward, Carries;
    StepKeeps(Responder, act, s.b);
    CalleeSteps(s, act);
    HandshakeByB(s, o.e, Taken(act), o.frames);
    PipesByB(s, act);
  }

  lemma NextDown(s: System)
    requires Inv(s)
    ensures Inv(Next(s, LinkDown))
  {
    hide LocalInv, PipeInv, SourceOf, SinkOf;
    KeepDown(Forward(s));
    KeepDown(Backward(s));
  }

  lemma NextInv(s: System, ev: Event)
    requires Inv(s) && CanStep(s, ev)
    ensures Inv(Next(s, ev))
  {
    hide Inv, Next, CanStep;
    match ev
    case ByA(act) => NextByA(s, act);
    case ByB(act) => NextByB(s, act);
    case LinkDown => NextDown(s);
  }

  // --- runs

  function Run(s: System, evs: seq<Event>): Option<System>
    decreases |evs|
  {
    if evs == [] then Some(s)
    else if CanStep(s, evs[0]) then Run(Next(s, evs[0]), evs[1..])
    else None
  }

  /** Some interleaving from two fresh tunnels leads here. */
  ghost predicate Reachable(s: System) {
    exists windowA: nat, capA: nat, windowB: nat, capB: nat, evs: seq<Event> ::
      Run(Initial(windowA, capA, windowB, capB), evs) == Some(s)
  }

  lemma {:induction false} RunInv(s: System, evs: seq<Event>)
    requires Inv(s)
    ensures Run(s, evs).Some? ==> Inv(Run(s, evs).value)
    decreases |evs|
  {
    hide Inv, CanStep, Next;
    if evs != [] && CanStep(s, evs[0]) {
      NextInv(s, evs[0]);
      RunInv(Next(s, evs[0]), evs[1..]);
    }
  }

  /** The invariant holds in every state two tunnels can reach. */
  lemma ReachableInv(s: System)
    requires Reachable(s)
    ensures Inv(s)
  {
    hide Inv, Run;
    var windowA: nat, capA: nat, windowB: nat, capB: nat, evs: seq<Event> :|
      Run(Initial(windowA, capA, windowB, capB), evs) == Some(s);
    InitialInv(windowA, capA, windowB, capB);
    RunInv(Initial(windowA, capA, windowB, capB), evs);
  }

  // --- window and inbox sizes are part of the configuration

  predicate SameSizes(e: End, e2: End) { e2.window == e.window && e2.cap == e.cap }

  lemma MovesKeepSizes(x: Source, x2: Source, push: seq<Item>, n: nat, k: Sink, k2: Sink, pop: seq<Item>, m: nat)
    requires SourceMove(x, x2, push, n) && SinkMove(k, k2, pop, m)
    ensures x2.window == x.window && k2.cap == k.cap
  {
  }

  lemma StepKeepsSizes(role: Role, act: Action, e: End)
    requires LocalInv(role, e) && Enabled(role, act, e) && (act.Deliver? ==> Expected(role, e, act.frame))
    ensures SameSizes(e, Step(role, act, e).e)
  {
    hide LocalInv, Step, Enabled, Expected, SourceMove, SinkMove, Held, Scan;
    StepMoves(role, act, e);
    var o := Step(role, act, e);
    MovesKeepSizes(SourceOf(role, e), SourceOf(role, o.e), Carries(o.frames), Acks(Taken(act)),
                   SinkOf(e), SinkOf(o.e), Carries(Taken(act)), Acks(o.frames));
  }

  lemma SizesStay(s: System, ev: Event)
    requires Inv(s) && CanStep(s, ev)
    ensures SameSizes(s.a, Next(s, ev).a) && SameSizes(s.b, Next(s, ev).b)
  {
    hide PipeInv, PipeOf, SourceOf, SinkOf, Handshake, LocalInv, Step, Enabled, Expected;
    match ev
    case ByA(act) =>
      if act.Deliver? { ExpectedByA(s, act); }
      StepKeepsSizes(Initiator, act, s.a);
    case ByB(act) =>
      if act.Deliver? { ExpectedByB(s, act); }
      StepKeepsSizes(Responder, act, s.b);
    case LinkDown =>
  }

  lemma {:induction false} SizesInRun(s: System, evs: seq<Event>)
    requires Inv(s) && Run(s, evs).Some?
    ensures SameSizes(s.a, Run(s, evs).value.a) && SameSizes(s.b, Run(s, evs).value.b)
    decreases |evs|
  {
    hide Inv, CanStep, Next;
    if evs != [] {
      SizesStay(s, evs[0]);
      NextInv(s, evs[0]);
      SizesInRun(Next(s, evs[0]), evs[1..]);
    }
  }
}
