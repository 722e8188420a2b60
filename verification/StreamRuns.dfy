/** Concrete runs: how to put one together, and the run that opens a stream in any configuration. */
module StreamRuns {
  import opened Basics
  import opened Pipe
  import opened StreamEndpoint
  import opened StreamLocal
  import opened StreamSystem
  import opened StreamHalfClose

  ghost predicate Path(s: System, t: System) { exists evs: seq<Event> :: Run(s, evs) == Some(t) }

  lemma PathEmpty(s: System)
    ensures Path(s, s)
  {
    assert Run(s, []) == Some(s);
  }

  lemma {:induction false} RunSnoc(s: System, evs: seq<Event>, ev: Event)
    requires Run(s, evs).Some? && CanStep(Run(s, evs).value, ev)
    ensures Run(s, evs + [ev]) == Some(Next(Run(s, evs).value, ev))
    decreases |evs|
  {
    hide CanStep, Next;
    if evs == [] {
      assert evs + [ev] == [ev] && [ev][1..] == [];
    } else {
      assert (evs + [ev])[1..] == evs[1..] + [ev] && (evs + [ev])[0] == evs[0];
      RunSnoc(Next(s, evs[0]), evs[1..], ev);
    }
  }

  lemma PathSnoc(s: System, t: System, ev: Event)
    requires Path(s, t) && CanStep(t, ev)
    ensures Path(s, Next(t, ev))
  {
    hide Run, CanStep, Next;
    var evs: seq<Event> :| Run(s, evs) == Some(t);
    RunSnoc(s, evs, ev);
  }

  lemma GoesA(s: System, t: System, act: Action, e2: End, frames: seq<Frame>, ba2: seq<Frame>)
    requires Path(s, t) && t.up && Enabled(Initiator, act, t.a) && Step(Initiator, act, t.a) == Out(e2, frames)
    requires t.ba == Taken(act) + ba2
    ensures Path(s, System(e2, t.b, t.ab + frames, ba2, true))
    ensures frames == [] ==> Path(s, System(e2, t.b, t.ab, ba2, true))
  {
    assert t.ab + [] == t.ab;
    hide Path, Enabled, Step;
    PathSnoc(s, t, ByA(act));
  }

  lemma GoesB(s: System, t: System, act: Action, e2: End, frames: seq<Frame>, ab2: seq<Frame>)
    requires Path(s, t) && t.up && Enabled(Responder, act, t.b) && Step(Responder, act, t.b) == Out(e2, frames)
    requires t.ab == Taken(act) + ab2
    ensures Path(s, System(t.a, e2, ab2, t.ba + frames, true))
    ensures frames == [] ==> Path(s, System(t.a, e2, ab2, t.ba, true))
  {
    assert t.ba + [] == t.ba;
    hide Path, Enabled, Step;
    PathSnoc(s, t, ByB(act));
  }

  lemma SilentA(s: System, t: System, act: Action, e2: End)
    requires Path(s, t) && t.up && Taken(act) == [] && Goes(Initiator, t.a, act, e2)
    ensures Path(s, t.(a := e2))
  {
    hide Path, Enabled, Step;
    GoesA(s, t, act, e2, [], t.ba);
  }

  lemma SilentB(s: System, t: System, act: Action, e2: End)
    requires Path(s, t) && t.up && Taken(act) == [] && Goes(Responder, t.b, act, e2)
    ensures Path(s, t.(b := e2))
  {
    hide Path, Enabled, Step;
    GoesB(s, t, act, e2, [], t.ab);
  }

  lemma {:induction false} RunConcat(s: System, x: seq<Event>, y: seq<Event>)
    requires Run(s, x).Some?
    ensures Run(s, x + y) == Run(Run(s, x).value, y)
    decreases |x|
  {
    hide CanStep, Next;
    if x == [] {
      assert x + y == y;
    } else {
      assert (x + y)[1..] == x[1..] + y && (x + y)[0] == x[0];
      RunConcat(Next(s, x[0]), x[1..], y);
    }
  }

  lemma PathTrans(s: System, t: System, u: System)
    requires Path(s, t) && Path(t, u)
    ensures Path(s, u)
  {
    hide Run;
    var x: seq<Event> :| Run(s, x) == Some(t);
    var y: seq<Event> :| Run(t, y) == Some(u);
    RunConcat(s, x, y);
  }

  // --- once a stream is open, its two sides behave alike

  function Mirror(s: System): System { System(s.b, s.a, s.ba, s.ab, s.up) }

  /** The system as the given side sees it: that side comes first. */
  function View(s: System, side: Role): System { if side == Initiator then s else Mirror(s) }

  function Reflected(ev: Event): Event {
    match ev
    case ByA(act) => ByB(act)
    case ByB(act) => ByA(act)
    case LinkDown => LinkDown
  }

  predicate Begun(s: System) { s.a.phase != Absent && s.b.phase != Absent }

  lemma RoleIsMoot(act: Action, e: End)
    requires e.phase != Absent
    ensures Enabled(Initiator, act, e) <==> Enabled(Responder, act, e)
  {
  }

  lemma SameStep(act: Action, e: End)
    requires Enabled(Initiator, act, e) && Enabled(Responder, act, e)
    ensures Step(Initiator, act, e) == Step(Responder, act, e)
  {
    hide Enabled;
    if OfConnection(act) {
      assert ConnectionStep(Initiator, act, e) == ConnectionStep(Responder, act, e);
    } else if OfTransport(act) {
      assert TransportStep(Initiator, act, e) == TransportStep(Responder, act, e);
    } else if OfReader(act) {
      assert ReaderStep(Initiator, act, e) == ReaderStep(Responder, act, e);
    } else if OfWriter(act) {
      assert WriterStep(Initiator, act, e) == WriterStep(Responder, act, e);
    }
  }

  lemma StaysBegun(role: Role, act: Action, e: End)
    requires Enabled(role, act, e) && e.phase != Absent
    ensures Step(role, act, e).e.phase != Absent
  {
    hide Step, Enabled;
    OpeningStep(role, act, e);
  }

  lemma MirrorStep(s: System, ev: Event)
    requires Begun(s) && CanStep(s, ev)
    ensures CanStep(Mirror(s), Reflected(ev)) && Next(Mirror(s), Reflected(ev)) == Mirror(Next(s, ev))
            && Begun(Next(s, ev))
  {
    hide Enabled, Step, Taken;
    match ev
    case ByA(act) =>
      RoleIsMoot(act, s.a);
      SameStep(act, s.a);
      StaysBegun(Initiator, act, s.a);
    case ByB(act) =>
      RoleIsMoot(act, s.b);
      SameStep(act, s.b);
      StaysBegun(Responder, act, s.b);
    case LinkDown =>
  }

  lemma {:induction false} MirrorRun(s: System, evs: seq<Event>)
    requires Begun(s) && Run(s, evs).Some?
    ensures Path(Mirror(s), Mirror(Run(s, evs).value))
    decreases |evs|
  {
    hide CanStep, Next, Path, Mirror, Begun;
    PathEmpty(Mirror(s));
    if evs != [] {
      var s2 := Next(s, evs[0]);
      MirrorStep(s, evs[0]);
      PathSnoc(Mirror(s), Mirror(s), Reflected(evs[0]));
      MirrorRun(s2, evs[1..]);
      PathTrans(Mirror(s), Mirror(s2), Mirror(Run(s, evs).value));
    }
  }

  /** What one side can bring about in an open stream, the other side can too. */
  lemma MirrorPath(s: System, t: System)
    requires Begun(s) && Path(s, t)
    ensures Path(Mirror(s), Mirror(t))
  {
    hide Run;
    var evs: seq<Event> :| Run(s, evs) == Some(t);
    MirrorRun(s, evs);
  }

  lemma SeenFrom(s: System, side: Role, u: System)
    requires Begun(s) && Path(View(s, side), u)
    ensures Path(s, View(u, side)) && View(View(u, side), side) == u
  {
    hide Path;
    if side == Responder { MirrorPath(Mirror(s), u); }
  }

  // --- the handshake of an undisturbed stream

  function CallerCalled(w: nat, cap: nat): End {
    Fresh(w, cap).(phase := Live, bound := true, boot := Booted, conn := true, reader := AwaitReady,
        writer := AwaitStart,
                   trace := [Connect])
  }

  function CallerReading(w: nat, cap: nat): End {
    CallerCalled(w, cap).(ready := true, reader := AtRead)
  }

  function CalleeReady(w: nat, cap: nat): End {
    Fresh(w, cap).(phase := Live, bound := true, boot := Booted, conn := true, ready := true, reader := AwaitReady,
        writer := Idle,
                   trace := [SynAck(true)])
  }

  lemma Calls(w: nat, cap: nat, peer: End)
    ensures Path(System(Fresh(w, cap), peer, [], [], true), System(CallerCalled(w, cap), peer, [Connect], [], true))
  {
    var s := System(Fresh(w, cap), peer, [], [], true);
    var e1 := Fresh(w, cap).(phase := Live, conn := true, boot := AtConnect, writer := AwaitStart);
    PathEmpty(s);
    assert [] + [Connect] == [Connect];
    GoesA(s, s, Accept, e1, [], []);
    GoesA(s, System(e1, peer, [], [], true), SendConnect(true, Ok), CallerCalled(w, cap), [Connect], []);
  }

  lemma Dials(w: nat, cap: nat, caller: End)
    ensures Path(System(caller, Fresh(w, cap), [Connect], [], true),
                 System(caller, Fresh(w, cap).(phase := Live, bound := true, boot := AtSynAck, conn := true,
                     writer := AwaitStart),
                        [], [], true))
  {
    var s := System(caller, Fresh(w, cap), [Connect], [], true);
    var e1 := Fresh(w, cap).(phase := Live, bound := true, boot := AtDial, writer := AwaitStart);
    PathEmpty(s);
    GoesB(s, s, Deliver(Connect, true, true, Ok), e1, [], []);
    GoesB(s, System(caller, e1, [], [], true), DialDone, e1.(boot := AtSynAck, conn := true), [], []);
  }

  lemma Starts(s: System, caller: End, e3: End, w: nat, cap: nat)
    requires e3.boot == AtReady && e3.writer == AwaitStart
    requires e3.(boot := Booted, ready := true, reader := AwaitReady, writer := Idle) == CalleeReady(w, cap)
    requires Path(s, System(caller, e3, [], [SynAck(true)], true))
    ensures Path(s, System(caller, CalleeReady(w, cap), [], [SynAck(true)], true))
  {
    hide CalleeReady;
    var e4 := e3.(boot := Booted, ready := true, reader := AwaitReady);
    GoesB(s, System(caller, e3, [], [SynAck(true)], true), StartReader, e4, [], []);
    GoesB(s, System(caller, e4, [], [SynAck(true)], true), WriterStart, CalleeReady(w, cap), [], []);
  }

  lemma Answers(w: nat, cap: nat, caller: End)
    ensures Path(System(caller, Fresh(w, cap), [Connect], [], true),
            System(caller, CalleeReady(w, cap), [], [SynAck(true)], true))
  {
    var s := System(caller, Fresh(w, cap), [Connect], [], true);
    var e2 := Fresh(w, cap).(phase := Live, bound := true, boot := AtSynAck, conn := true, writer := AwaitStart);
    var e3 := e2.(boot := AtReady, trace := [SynAck(true)]);
    Dials(w, cap, caller);
    assert [] + [SynAck(true)] == [SynAck(true)];
    GoesB(s, System(caller, e2, [], [], true), SendSynAck(Ok), e3, [SynAck(true)], []);
    assert e3.(boot := Booted, ready := true, reader := AwaitReady, writer := Idle) == CalleeReady(w, cap);
    hide Path, Fresh, CalleeReady;
    Starts(s, caller, e3, w, cap);
  }

  lemma Opens(w: nat, cap: nat, peer: End)
    ensures Path(System(CallerCalled(w, cap), peer, [], [SynAck(true)], true),
            System(CallerReading(w, cap), peer, [], [], true))
  {
    var s := System(CallerCalled(w, cap), peer, [], [SynAck(true)], true);
    var e1 := CallerCalled(w, cap).(ready := true);
    PathEmpty(s);
    GoesA(s, s, Deliver(SynAck(true), true, true, Ok), e1, [], []);
    GoesA(s, System(e1, peer, [], [], true), ReaderWake, CallerReading(w, cap), [], []);
  }

  /** One side of an open stream on which nothing has happened yet. */
  function Running(role: Role, w: nat, cap: nat): End {
    Fresh(w, cap).(phase := Live, bound := true, boot := Booted, conn := true, ready := true, reader := AtRead,
        writer := Idle,
                   trace := [Opener(role)])
  }

  function Opened(windowA: nat, capA: nat, windowB: nat, capB: nat): System {
    System(Running(Initiator, windowA, capA), Running(Responder, windowB, capB), [], [], true)
  }

  lemma LoopsStart(windowA: nat, capA: nat, windowB: nat, capB: nat)
    ensures Goes(Initiator, CallerReading(windowA, capA), WriterStart, Running(Initiator, windowA, capA))
    ensures Goes(Responder, CalleeReady(windowB, capB), ReaderWake, Running(Responder, windowB, capB))
  {
  }

  /** Every configuration can open a stream. */
  lemma OpensUp(windowA: nat, capA: nat, windowB: nat, capB: nat)
    ensures Path(Initial(windowA, capA, windowB, capB), Opened(windowA, capA, windowB, capB))
  {
    hide Path, CallerCalled, CallerReading, CalleeReady, Fresh, Running, Goes;
    var s0 := Initial(windowA, capA, windowB, capB);
    var s1 := System(CallerCalled(windowA, capA), Fresh(windowB, capB), [Connect], [], true);
    var s2 := System(CallerCalled(windowA, capA), CalleeReady(windowB, capB), [], [SynAck(true)], true);
    var s3 := System(CallerReading(windowA, capA), CalleeReady(windowB, capB), [], [], true);
    Calls(windowA, capA, Fresh(windowB, capB));
    Answers(windowB, capB, CallerCalled(windowA, capA));
    Opens(windowA, capA, CalleeReady(windowB, capB));
    PathTrans(s0, s1, s2);
    PathTrans(s0, s2, s3);
    LoopsStart(windowA, capA, windowB, capB);
    SilentA(s0, s3, WriterStart, Running(Initiator, windowA, capA));
    SilentB(s0, s3.(a := Running(Initiator, windowA, capA)), ReaderWake, Running(Responder, windowB, capB));
  }

  /** What can be reached from an open stream as one side sees it can be reached from the start. */
  lemma FromTheStart(windowA: nat, capA: nat, windowB: nat, capB: nat, side: Role, u: System)
    requires Path(View(Opened(windowA, capA, windowB, capB), side), u)
    ensures Path(Initial(windowA, capA, windowB, capB), View(u, side)) && View(View(u, side), side) == u
  {
    hide Path;
    var s := Opened(windowA, capA, windowB, capB);
    assert Begun(s);
    hide Opened;
    SeenFrom(s, side, u);
    OpensUp(windowA, capA, windowB, capB);
    PathTrans(Initial(windowA, capA, windowB, capB), s, View(u, side));
  }

  // --- episodes of an open stream

  /** readLoop hands over one more byte; a window with room costs one token. */
  function Handed(e: End, x: Byte): End {
    e.(reader := AtRead, read := e.read + [x], sent := e.sent + [x], trace := e.trace + [Data([x])],
        tokens := if e.window > 0 then e.tokens + 1 else e.tokens)
  }

  lemma Hands(s: System, x: Byte)
    requires s.up && s.a.reader == AtRead && s.a.bound && (s.a.window > 0 ==> s.a.tokens < s.a.window)
    ensures Path(s, System(Handed(s.a, x), s.b, s.ab + [Data([x])], s.ba, true))
  {
    var e2 := s.a.(reader := AtSend([x], false), read := s.a.read + [x],
                   tokens := if s.a.window > 0 then s.a.tokens + 1 else s.a.tokens);
    if s.a.window > 0 { ReadsOnCredit(s, x); } else { ReadsFreely(s, x); }
    var t := System(e2, s.b, s.ab, s.ba, true);
    assert Step(Initiator, SendData(Ok), e2) == Out(Handed(s.a, x), [Data([x])]);
    GoesA(s, t, SendData(Ok), Handed(s.a, x), [Data([x])], s.ba);
  }

  lemma ReadsFreely(s: System, x: Byte)
    requires s.up && s.a.reader == AtRead && s.a.window == 0
    ensures Path(s, System(s.a.(reader := AtSend([x], false), read := s.a.read + [x]), s.b, s.ab, s.ba, true))
  {
    PathEmpty(s);
    GoesA(s, s, ReadBytes([x], false), s.a.(reader := AtSend([x], false), read := s.a.read + [x]), [], s.ba);
  }

  lemma Acquires(e: End, x: Bytes)
    requires 0 < e.window && e.tokens < e.window && x != []
    ensures e.reader == AtRead ==>
              Goes(Initiator, e, ReadBytes(x, false), e.(reader := AtCredit(x, false), read := e.read + x))
    ensures e.reader == AtCredit(x, false) ==>
              Goes(Initiator, e, Acquire, e.(reader := AtSend(x, false), tokens := e.tokens + 1))
  {
  }

  lemma ReadsOnCredit(s: System, x: Byte)
    requires s.up && s.a.reader == AtRead && 0 < s.a.window && s.a.tokens < s.a.window
    ensures Path(s, System(s.a.(reader := AtSend([x], false), read := s.a.read + [x], tokens := s.a.tokens + 1), s.b,
            s.ab, s.ba, true))
  {
    PathEmpty(s);
    var e1 := s.a.(reader := AtCredit([x], false), read := s.a.read + [x]);
    Acquires(s.a, [x]);
    Acquires(e1, [x]);
    hide Path, Goes;
    SilentA(s, s, ReadBytes([x], false), e1);
    SilentA(s, s.(a := e1), Acquire, e1.(reader := AtSend([x], false), tokens := s.a.tokens + 1));
  }

  function HandedMany(e: End, x: Byte, k: nat): (r: End)
    requires e.reader == AtRead
    ensures r == e.(read := r.read, sent := r.sent, trace := r.trace,
                    tokens := if e.window > 0 then e.tokens + k else e.tokens)
  {
    if k == 0 then e else Handed(HandedMany(e, x, k - 1), x)
  }

  function Datas(x: Byte, k: nat): (r: seq<Frame>)
    ensures |r| == k && forall f <- r :: f == Data([x])
  {
    if k == 0 then [] else Datas(x, k - 1) + [Data([x])]
  }

  /** k bytes in k DATA. */
  lemma {:induction false} HandsMany(s: System, x: Byte, k: nat)
    requires s.up && s.a.reader == AtRead && s.a.bound && (s.a.window > 0 ==> s.a.tokens + k <= s.a.window)
    ensures Path(s, System(HandedMany(s.a, x, k), s.b, s.ab + Datas(x, k), s.ba, true))
    decreases k
  {
    hide Path;
    if k == 0 {
      PathEmpty(s);
      assert s.ab + [] == s.ab;
    } else {
      HandsMany(s, x, k - 1);
      var t := System(HandedMany(s.a, x, k - 1), s.b, s.ab + Datas(x, k - 1), s.ba, true);
      var u := System(Handed(t.a, x), t.b, t.ab + [Data([x])], t.ba, true);
      Hands(t, x);
      PathTrans(s, t, u);
      assert t.ab + [Data([x])] == s.ab + (Datas(x, k - 1) + [Data([x])]);
    }
  }

  lemma Receives(role: Role, e: End, f: Frame)
    requires e.phase == Live && e.hand == None && (f.Data? || f.Fin?)
    ensures Enabled(role, Deliver(f, true, true, Ok), e)
    ensures Step(role, Deliver(f, true, true, Ok), e) == Out(e.(hand := Some(Carried(f)[0])), [])
  {
  }

  lemma Queues(role: Role, e: End, i: Item)
    requires e.hand == Some(i) && |e.inbox| < e.cap
    ensures Goes(role, e, Enqueue, e.(hand := None, inbox := e.inbox + [i]))
  {
  }

  lemma TakesData(role: Role, e: End, x: Bytes)
    requires e.conn && e.writer == Idle && e.inbox == [DataItem(x)]
    ensures Goes(role, e, Take, e.(inbox := [], writer := AtWrite(x)))
  {
    assert e.inbox[1..] == [];
  }

  /** The next frame is taken into the inbox. */
  lemma TakesIn(s: System, f: Frame, later: seq<Frame>)
    requires s.up && s.b.phase == Live && s.b.hand == None && |s.b.inbox| < s.b.cap && (f.Data? || f.Fin?)
             && s.ab == [f] + later
    ensures Path(s, s.(b := s.b.(inbox := s.b.inbox + Carried(f)), ab := later))
  {
    PathEmpty(s);
    var i := Carried(f)[0];
    var e1, e2 := s.b.(hand := Some(i)), s.b.(inbox := s.b.inbox + [i]);
    assert Carried(f) == [i] && Taken(Deliver(f, true, true, Ok)) == [f];
    Receives(Responder, s.b, f);
    Queues(Responder, e1, i);
    hide Path, Enabled, Step, Goes, Carried, Taken;
    GoesB(s, s, Deliver(f, true, true, Ok), e1, [], later);
    SilentB(s, s.(b := e1, ab := later), Enqueue, e2);
  }

  /** b takes the next DATA and begins to write it. */
  lemma EntersWrite(s: System, x: Bytes, later: seq<Frame>)
    requires s.up && s.b.phase == Live && s.b.conn && s.b.writer == Idle && s.b.inbox == [] && s.b.hand == None
             && s.b.cap > 0
    requires s.ab == [Data(x)] + later
    ensures Path(s, s.(b := s.b.(writer := AtWrite(x)), ab := later))
  {
    var e := s.b.(inbox := [DataItem(x)]);
    assert [] + [DataItem(x)] == [DataItem(x)];
    TakesIn(s, Data(x), later);
    TakesData(Responder, e, x);
    hide Path, Goes;
    SilentB(s, s.(b := e, ab := later), Take, s.b.(writer := AtWrite(x)));
  }

  lemma ReadsToEnd(role: Role, e: End)
    requires e.reader == AtRead
    ensures Goes(role, e, ReadEnd, e.(reader := AtEof))
  {
  }

  lemma QueuesEnd(role: Role, e: End)
    requires e.reader == AtEof && |e.inbox| < e.cap
    ensures Goes(role, e, EnqueueEof, e.(reader := ReaderDone, inbox := e.inbox + [EofItem]))
  {
  }

  /** b's connection has no more to read. */
  lemma QueuesEof(s: System)
    requires s.up && s.b.reader == AtRead && |s.b.inbox| < s.b.cap
    ensures Path(s, s.(b := s.b.(reader := ReaderDone, inbox := s.b.inbox + [EofItem])))
  {
    PathEmpty(s);
    var e := s.b.(reader := AtEof);
    ReadsToEnd(Responder, s.b);
    QueuesEnd(Responder, e);
    hide Path, Goes;
    SilentB(s, s, ReadEnd, e);
    SilentB(s, s.(b := e), EnqueueEof, s.b.(reader := ReaderDone, inbox := s.b.inbox + [EofItem]));
  }

  /** Neither direction has ended, and the writer is free. */
  predicate Unended(e: End) {
    e.phase == Live && e.bound && e.conn && e.writer == Idle && e.inbox == [] && e.hand == None && !e.localFin
        && !e.remoteFin && e.cap > 0
  }

  /** The end of the own data has been announced. */
  function Finished(e: End): End {
    e.(reader := ReaderDone, localFin := true, timer := Armed, trace := e.trace + [Fin(FromEOF)])
  }

  lemma Announces(s: System, e: End)
    requires s.up && s.a == e.(localFin := true, writer := AtSendFin) && e.bound && e.writer == Idle
             && e.reader == ReaderDone
    ensures Path(s, System(Finished(e), s.b, s.ab + [Fin(FromEOF)], s.ba, true))
  {
    PathEmpty(s);
    var e2 := s.a.(trace := e.trace + [Fin(FromEOF)], writer := AtArm);
    SendsFin(Initiator, s.a, Ok);
    Arms(Initiator, e2);
    assert Step(Initiator, SendFin(Ok), s.a) == Out(e2, [Fin(FromEOF)]);
    assert e2.(timer := Armed, writer := Idle) == Finished(e);
    hide Path, Goes, Enabled, Step, Finished;
    GoesA(s, s, SendFin(Ok), e2, [Fin(FromEOF)], s.ba);
    SilentA(s, System(e2, s.b, s.ab + [Fin(FromEOF)], s.ba, true), Arm, e2.(timer := Armed, writer := Idle));
  }

  lemma Finishes(s: System, e: End)
    requires s.up && Unended(e) && e.reader == ReaderDone && s.a == e.(inbox := [EofItem])
    ensures Path(s, System(Finished(e), s.b, s.ab + [Fin(FromEOF)], s.ba, true))
  {
    PathEmpty(s);
    var e1, e2 := e.(writer := AtLocalEof), e.(localFin := true, writer := AtSendFin);
    assert [EofItem] == [EofItem] + [];
    TakesOne(Initiator, s.a, EofItem, []);
    HandlesEof(Initiator, e1);
    hide Path, Goes, Finished;
    SilentA(s, s, Take, e1);
    SilentA(s, s.(a := e1), LocalEof, e2);
    Announces(s.(a := e2), e);
    PathTrans(s, s.(a := e2), System(Finished(e), s.b, s.ab + [Fin(FromEOF)], s.ba, true));
  }

  /** a reads to the end of its connection and says so. */
  lemma EndsReading(s: System)
    requires s.up && s.a.reader == AtRead && Unended(s.a)
    ensures Path(s, System(Finished(s.a), s.b, s.ab + [Fin(FromEOF)], s.ba, true))
  {
    PathEmpty(s);
    assert [] + [EofItem] == [EofItem];
    var e1, e2 := s.a.(reader := AtEof), s.a.(reader := ReaderDone, inbox := [EofItem]);
    ReadsToEnd(Initiator, s.a);
    QueuesEnd(Initiator, e1);
    assert Finished(e2.(inbox := [])) == Finished(s.a);
    hide Path, Goes, Finished;
    SilentA(s, s, ReadEnd, e1);
    SilentA(s, s.(a := e1), EnqueueEof, e2);
    Finishes(s.(a := e2), e2.(inbox := []));
    PathTrans(s, s.(a := e2), System(Finished(s.a), s.b, s.ab + [Fin(FromEOF)], s.ba, true));
  }

  /** A local write has failed at once. */
  function Torn(e: End): End {
    e.(waste := e.waste + 1, phase := Gone, bound := false, ready := true, localFin := true, remoteFin := true,
        writer := WriterDone,
       trace := e.trace + [Fin(FromWriteFailure)])
  }

  function Failing(e: End): End { e.(waste := e.waste + 1, writer := AtRemove(FinFrame(FromWriteFailure))) }

  lemma FailsAtOnce(role: Role, e: End)
    requires e.writer.AtWrite?
    ensures Goes(role, e, WriteFail(0), Failing(e))
  {
    assert e.written + e.writer.payload[..0] == e.written;
    FailsWrite(role, e, 0);
  }

  lemma TearsDown(s: System)
    requires s.up && s.a.phase == Live && s.a.bound && s.a.writer.AtWrite?
    ensures Path(s, System(Torn(s.a), s.b, s.ab + [Fin(FromWriteFailure)], s.ba, true))
  {
    PathEmpty(s);
    FailsAtOnce(Initiator, s.a);
    var e := Failing(s.a);
    Removes(Initiator, e, FinFrame(FromWriteFailure), Ok);
    assert Step(Initiator, WriterRemove(Ok), e) == Out(Torn(s.a), [Fin(FromWriteFailure)]);
    hide Path, Goes, Enabled, Step, Torn, Failing;
    SilentA(s, s, WriteFail(0), e);
    GoesA(s, s.(a := e), WriterRemove(Ok), Torn(s.a), [Fin(FromWriteFailure)], s.ba);
  }

  /** b hands over one byte, too. */
  lemma PeerHands(s: System, x: Byte)
    requires Begun(s) && s.up && s.b.reader == AtRead && s.b.bound && (s.b.window > 0 ==> s.b.tokens < s.b.window)
    ensures Path(s, System(s.a, Handed(s.b, x), s.ab, s.ba + [Data([x])], true))
  {
    hide Path, Handed;
    Hands(Mirror(s), x);
    MirrorPath(Mirror(s), System(Handed(s.b, x), s.a, s.ba + [Data([x])], s.ab, true));
  }

  /** a takes the DATA on the wire and begins to write it, too. */
  lemma PeerEntersWrite(s: System, x: Bytes)
    requires Begun(s) && s.up && s.a.phase == Live && s.a.conn && s.a.writer == Idle && s.a.inbox == []
             && s.a.hand == None && s.a.cap > 0
    requires s.ba == [Data(x)]
    ensures Path(s, s.(a := s.a.(writer := AtWrite(x)), ba := []))
  {
    hide Path;
    assert [Data(x)] == [Data(x)] + [];
    EntersWrite(Mirror(s), x, []);
    MirrorPath(Mirror(s), Mirror(s.(a := s.a.(writer := AtWrite(x)), ba := [])));
  }

  /** A write that fails after the own end has been announced is announced as well. */
  lemma ClosesTwice(s: System, x: Bytes)
    requires Begun(s) && s.up && s.a.reader == AtRead && Unended(s.a) && s.ba == [Data(x)]
    ensures Path(s, System(Torn(Finished(s.a).(writer := AtWrite(x))), s.b,
            s.ab + [Fin(FromEOF)] + [Fin(FromWriteFailure)], [], true))
  {
    var s1 := System(Finished(s.a), s.b, s.ab + [Fin(FromEOF)], s.ba, true);
    var s2 := s1.(a := s1.a.(writer := AtWrite(x)), ba := []);
    hide Path, Torn;
    EndsReading(s);
    PeerEntersWrite(s1, x);
    PathTrans(s, s1, s2);
    TearsDown(s2);
    PathTrans(s, s2, System(Torn(s2.a), s2.b, s2.ab + [Fin(FromWriteFailure)], [], true));
  }
}
