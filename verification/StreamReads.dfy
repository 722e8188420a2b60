/**
 From the local connection to the transport: what readLoop makes of the bytes it reads. A DATA
 whose send fails, or that waits for credit when the stream closes, is given up, and readLoop
 ends with it; so what is sent is always the first part of what was read.
 */
module StreamReads {
  import opened Basics
  import opened Pipe
  import opened StreamEndpoint
  import opened StreamLocal
  import opened StreamSystem
  import opened StreamGrammar
  import opened StreamHalfClose
  import opened StreamRuns

  /** What readLoop has read and not yet passed on. */
  function Unsent(r: Reader): Bytes { if r.AtCredit? || r.AtSend? then r.payload else [] }

  /** readLoop has left its loop. */
  predicate Spent(r: Reader) { r == AtEof || r == ReaderDone }

  /** The step gives up the DATA that readLoop holds. */
  predicate GivesUp(a: Action, e: End) { a.AbortCredit? || (a.SendData? && !Sends(e, a.res)) }

  function DataOf(a: Action): Bytes { if a.ReadBytes? then a.data else [] }

  /** Until readLoop ends, all that was read has been sent or is still held; afterwards, a first part of it. */
  predicate ReadState(e: End) {
    && e.sent + Unsent(e.reader) <= e.read
    && (!Spent(e.reader) ==> e.sent + Unsent(e.reader) == e.read)
  }

  lemma SentFirst(e: End)
    requires ReadState(e)
    ensures e.sent <= e.read
  {
  }

  // --- one step

  predicate SameReader(e: End, e2: End) { e2.reader == e.reader && e2.read == e.read && e2.sent == e.sent }

  lemma CallKeepsReader(e: End, f: Frame, accept: bool, bind: bool, res: Result)
    requires f.Connect? || f.SynAck?
    ensures SameReader(e, Receive(e, f, accept, bind, res).e)
  {
    if f.Connect? {} else {}
  }

  lemma ItemKeepsReader(e: End, f: Frame, accept: bool, bind: bool, res: Result)
    requires f.Data? || f.Fin?
    ensures SameReader(e, Receive(e, f, accept, bind, res).e)
  {
  }

  lemma AckKeepsReader(e: End, accept: bool, bind: bool, res: Result)
    ensures SameReader(e, Receive(e, DataAck, accept, bind, res).e)
  {
  }

  lemma TransportKeepsReader(role: Role, a: Action, e: End)
    requires Enabled(role, a, e) && OfTransport(a)
    ensures SameReader(e, Step(role, a, e).e)
  {
    if a.Deliver? {
      hide Receive;
      if a.frame.Connect? || a.frame.SynAck? {
        CallKeepsReader(e, a.frame, a.accept, a.bind, a.res);
      } else if a.frame.DataAck? {
        AckKeepsReader(e, a.accept, a.bind, a.res);
      } else {
        ItemKeepsReader(e, a.frame, a.accept, a.bind, a.res);
      }
    } else if a.Enqueue? {} else {}
  }

  lemma WriterKeepsReader(role: Role, a: Action, e: End)
    requires Enabled(role, a, e) && OfWriter(a)
    ensures SameReader(e, Step(role, a, e).e)
  {
    if a.WriterRemove? { RemoveKeepsReader(role, a, e); } else { LoopKeepsReader(role, a, e); }
  }

  lemma RemoveKeepsReader(role: Role, a: Action, e: End)
    requires Enabled(role, a, e) && a.WriterRemove?
    ensures SameReader(e, Step(role, a, e).e)
  {
  }

  lemma LoopKeepsReader(role: Role, a: Action, e: End)
    requires Enabled(role, a, e) && OfWriter(a) && !a.WriterRemove?
    ensures SameReader(e, Step(role, a, e).e)
  {
    if a.Take? {} else if a.LocalEof? {} else if a.RemoteFin? {} else {}
  }

  lemma RestKeepsReader(role: Role, a: Action, e: End)
    requires Enabled(role, a, e) && !OfConnection(a) && !OfTransport(a) && !OfReader(a) && !OfWriter(a)
    ensures SameReader(e, Step(role, a, e).e)
  {
    if a.TimerRemove? {} else if a.CloseStream? {} else {}
  }

  /** The goroutine that sets a stream up starts readLoop, which then has read nothing. */
  predicate Starts(e: End, e2: End) {
    && e2.read == e.read && e2.sent == e.sent
    && (e2.reader == e.reader || (e.reader == NoReader && e2.reader == AwaitReady))
  }

  lemma RemoveKeeps(e: End, final: Final, res: Result)
    ensures SameReader(e, Remove(e, final, res).e)
  {
    hide Logged, Muted, Passed;
  }

  lemma RefusedStarts(role: Role, res: Result, e: End)
    requires Enabled(role, DialFailed(res), e)
    ensures SameReader(e, ConnectionStep(role, DialFailed(res), e).e)
  {
    RemoveKeeps(e.(boot := Booted), RefuseFrame, res);
    hide Remove;
  }

  lemma CallStarts(role: Role, session: bool, res: Result, e: End)
    requires Enabled(role, SendConnect(session, res), e) && e.reader == NoReader
    ensures Starts(e, ConnectionStep(role, SendConnect(session, res), e).e)
  {
    hide Remove;
    if !session {
      UncalledStarts(role, res, e);
      hide ConnectionStep;
    } else if res != Ok {
      FailedCallStarts(role, res, e);
      hide ConnectionStep;
    }
  }

  lemma UncalledStarts(role: Role, res: Result, e: End)
    requires Enabled(role, SendConnect(false, res), e)
    ensures SameReader(e, ConnectionStep(role, SendConnect(false, res), e).e)
  {
    RemoveKeeps(e.(boot := Booted, mute := true), NoFrame, res);
    hide Remove;
  }

  lemma FailedCallStarts(role: Role, res: Result, e: End)
    requires Enabled(role, SendConnect(true, res), e) && res != Ok
    ensures SameReader(e, ConnectionStep(role, SendConnect(true, res), e).e)
  {
    RemoveKeeps(e.(boot := Booted, bound := true, trace := e.trace + [Connect], mute := true), NoFrame, res);
    hide Remove;
  }

  lemma DialledKeeps(e: End)
    ensures SameReader(e, Dialled(e))
  {
    if e.phase == Gone {} else {}
  }

  lemma DialStarts(role: Role, a: Action, e: End)
    requires Enabled(role, a, e) && (a.Accept? || a.DialDone?)
    ensures SameReader(e, ConnectionStep(role, a, e).e)
  {
    DialledKeeps(e);
    hide Dialled;
    if a.Accept? {} else {}
  }

  lemma AnswerStarts(role: Role, a: Action, e: End)
    requires Enabled(role, a, e) && (a.SendSynAck? || a.StartReader?) && e.reader == NoReader
    ensures Starts(e, ConnectionStep(role, a, e).e)
  {
  }

  lemma NotStarted(role: Role, a: Action, e: End)
    requires LocalInv(role, e) && Enabled(role, a, e) && OfConnection(a)
    ensures a.SendConnect? || a.SendSynAck? || a.StartReader? ==> e.reader == NoReader
  {
    hide EofLast, FinState, TraceState, Pristine, Waiting;
  }

  lemma ConnectionStartsReader(role: Role, a: Action, e: End)
    requires LocalInv(role, e) && Enabled(role, a, e) && OfConnection(a)
    ensures Starts(e, Step(role, a, e).e)
  {
    NotStarted(role, a, e);
    hide LocalInv, Enabled, ConnectionStep;
    match a
    case SendConnect(session, res) => CallStarts(role, session, res, e);
    case DialFailed(res) => RefusedStarts(role, res, e);
    case SendSynAck(_) => AnswerStarts(role, a, e);
    case StartReader => AnswerStarts(role, a, e);
    case _ => DialStarts(role, a, e);
  }

  /** What a step does to the two records of readLoop. */
  predicate Reads(a: Action, e: End, e2: End) {
    && e2.read == e.read + DataOf(a)
    && (Spent(e.reader) ==> SameReading(e, e2) && DataOf(a) == [] && !GivesUp(a, e))
    && (GivesUp(a, e) ==> SameReading(e, e2) && DataOf(a) == [] && Unsent(e.reader) != [])
    && (!Spent(e.reader) && !GivesUp(a, e) ==>
          e2.sent + Unsent(e2.reader) == e.sent + Unsent(e.reader) + DataOf(a))
  }

  predicate SameReading(e: End, e2: End) { e2.sent == e.sent && Spent(e2.reader) }

  lemma SentReads(role: Role, a: Action, e: End)
    requires Enabled(role, a, e) && a.SendData? && e.reader.payload != [] && Sends(e, a.res)
    ensures Reads(a, e, Step(role, a, e).e)
  {
    assert e.sent + e.reader.payload + [] == e.sent + e.reader.payload;
  }

  lemma FailedReads(role: Role, a: Action, e: End)
    requires Enabled(role, a, e) && a.SendData? && e.reader.payload != [] && !Sends(e, a.res)
    ensures Reads(a, e, Step(role, a, e).e)
  {
  }

  lemma LoopReads(role: Role, a: Action, e: End)
    requires Enabled(role, a, e) && OfReader(a) && !a.SendData? && (a.AbortCredit? ==> e.reader.payload != [])
    ensures Reads(a, e, Step(role, a, e).e)
  {
    hide Enabled, ReaderStep, Reads;
    if a.ReadBytes? || a.AbortCredit? { BodyReads(role, a, e); } else { EdgeReads(role, a, e); }
  }

  lemma BodyReads(role: Role, a: Action, e: End)
    requires Enabled(role, a, e) && (a.ReadBytes? || (a.AbortCredit? && e.reader.payload != []))
    ensures Reads(a, e, ReaderStep(role, a, e).e)
  {
    if a.ReadBytes? {} else {}
  }

  lemma EdgeReads(role: Role, a: Action, e: End)
    requires Enabled(role, a, e) && OfReader(a) && !a.SendData? && !a.ReadBytes? && !a.AbortCredit?
    ensures Reads(a, e, ReaderStep(role, a, e).e)
  {
    if a.Acquire? {} else if a.ReaderWake? {} else {}
  }

  lemma SameReads(a: Action, e: End, e2: End)
    requires SameReader(e, e2) && !OfReader(a)
    ensures Reads(a, e, e2)
  {
    assert e.read + [] == e.read;
  }

  lemma StartReads(a: Action, e: End, e2: End)
    requires e2.read == e.read && e2.sent == e.sent && e.reader == NoReader && e2.reader == AwaitReady && !OfReader(a)
    ensures Reads(a, e, e2)
  {
    assert e.read + [] == e.read;
  }

  lemma Holding(role: Role, a: Action, e: End)
    requires LocalInv(role, e) && Enabled(role, a, e) && (a.SendData? || a.AbortCredit?)
    ensures (e.reader.AtCredit? || e.reader.AtSend?) && e.reader.payload != []
  {
    hide EofLast, FinState, TraceState, Pristine, Waiting, BootOrder;
  }

  lemma StepReads(role: Role, a: Action, e: End)
    requires LocalInv(role, e) && Enabled(role, a, e)
    ensures Reads(a, e, Step(role, a, e).e)
  {
    hide Enabled, Step, LocalInv, Reads;
    var e2 := Step(role, a, e).e;
    if OfReader(a) {
      if a.SendData? || a.AbortCredit? { Holding(role, a, e); }
      if !a.SendData? {
        LoopReads(role, a, e);
      } else if Sends(e, a.res) {
        SentReads(role, a, e);
      } else {
        FailedReads(role, a, e);
      }
    } else if OfConnection(a) {
      ConnectionStartsReader(role, a, e);
      if e2.reader == e.reader { SameReads(a, e, e2); } else { StartReads(a, e, e2); }
    } else {
      if OfTransport(a) {
        TransportKeepsReader(role, a, e);
      } else if OfWriter(a) {
        WriterKeepsReader(role, a, e);
      } else {
        RestKeepsReader(role, a, e);
      }
      SameReads(a, e, e2);
    }
  }

  // --- runs

  /** The step of the given side in an event. */
  function StepOf(side: Role, ev: Event): Option<Action> {
    match ev
    case ByA(act) => if side == Initiator then Some(act) else None
    case ByB(act) => if side == Responder then Some(act) else None
    case LinkDown => None
  }

  /** The bytes the local connection of this side delivers in a run, in order. */
  function ReadBy(side: Role, evs: seq<Event>): Bytes {
    if evs == [] then []
    else (match StepOf(side, evs[0]) case None => [] case Some(a) => DataOf(a)) + ReadBy(side, evs[1..])
  }

  predicate GivesUpNow(side: Role, s: System, ev: Event) {
    match StepOf(side, ev) case None => false case Some(a) => GivesUp(a, Mine(s, side))
  }

  /** At some moment of the run readLoop of this side gives up a DATA. */
  predicate GaveUp(side: Role, s: System, evs: seq<Event>)
    requires Run(s, evs).Some?
    decreases |evs|
  {
    evs != [] && (GivesUpNow(side, s, evs[0]) || GaveUp(side, Next(s, evs[0]), evs[1..]))
  }

  lemma OthersKeepMine(side: Role, s: System, ev: Event)
    requires CanStep(s, ev) && StepOf(side, ev) == None
    ensures Mine(Next(s, ev), side) == Mine(s, side)
  {
    hide Step, Enabled;
  }

  lemma MineSteps(side: Role, s: System, ev: Event)
    requires CanStep(s, ev) && StepOf(side, ev).Some?
    ensures var a := StepOf(side, ev).value;
            Enabled(side, a, Mine(s, side)) && Mine(Next(s, ev), side) == Step(side, a, Mine(s, side)).e
  {
    hide Step, Enabled;
  }

  lemma NextReads(side: Role, s: System, ev: Event)
    requires Inv(s) && CanStep(s, ev) && StepOf(side, ev).Some?
    ensures Reads(StepOf(side, ev).value, Mine(s, side), Mine(Next(s, ev), side))
  {
    hide Step, Enabled, Inv, LocalInv, CanStep, Next, Reads;
    BothLocal(s);
    MineSteps(side, s, ev);
    StepReads(side, StepOf(side, ev).value, Mine(s, side));
  }

  /** Once readLoop has left its loop, nothing more is read or sent. */
  lemma {:induction false} SpentRun(side: Role, s: System, evs: seq<Event>)
    requires Inv(s) && Spent(Mine(s, side).reader) && Run(s, evs).Some?
    ensures var t := Run(s, evs).value;
            && SameReading(Mine(s, side), Mine(t, side)) && Mine(t, side).read == Mine(s, side).read
            && ReadBy(side, evs) == [] && !GaveUp(side, s, evs)
    decreases |evs|
  {
    hide Inv, CanStep, Next;
    if evs != [] {
      NextInv(s, evs[0]);
      if StepOf(side, evs[0]).Some? { NextReads(side, s, evs[0]); } else { OthersKeepMine(side, s, evs[0]); }
      SpentRun(side, Next(s, evs[0]), evs[1..]);
    }
  }

  /** Over a run: what is read, what is sent of it, and when some of it is not. */
  predicate RunReads(e: End, e2: End, data: Bytes, gaveUp: bool) {
    && e2.read == e.read + data
    && (gaveUp ==> Spent(e2.reader) && e2.sent < e.sent + Unsent(e.reader) + data)
    && (!gaveUp ==> e2.sent + Unsent(e2.reader) == e.sent + Unsent(e.reader) + data)
  }

  lemma ThenReads(e: End, e1: End, e2: End, a: Action, data: Bytes, gaveUp: bool)
    requires Reads(a, e, e1) && RunReads(e1, e2, data, gaveUp)
    requires Spent(e1.reader) ==> e2.sent == e1.sent && Spent(e2.reader) && data == [] && !gaveUp
    ensures RunReads(e, e2, DataOf(a) + data, gaveUp || GivesUp(a, e))
  {
    assert e.read + (DataOf(a) + data) == e.read + DataOf(a) + data;
    var x := e.sent + Unsent(e.reader);
    assert x + (DataOf(a) + data) == x + DataOf(a) + data;
    if GivesUp(a, e) {
      assert e2.sent + Unsent(e.reader) + (DataOf(a) + data) == x + (DataOf(a) + data);
    }
  }

  lemma {:induction false} RunsRead(side: Role, s: System, evs: seq<Event>)
    requires Inv(s) && Run(s, evs).Some?
    ensures RunReads(Mine(s, side), Mine(Run(s, evs).value, side), ReadBy(side, evs), GaveUp(side, s, evs))
    decreases |evs|
  {
    hide Inv, CanStep, Next, RunReads, Reads, GivesUp, DataOf;
    var e := Mine(s, side);
    if evs == [] {
      NothingRead(e);
    } else {
      var s1 := Next(s, evs[0]);
      NextInv(s, evs[0]);
      RunsRead(side, s1, evs[1..]);
      if StepOf(side, evs[0]).Some? {
        NextReads(side, s, evs[0]);
        if Spent(Mine(s1, side).reader) { SpentRun(side, s1, evs[1..]); }
        ThenReads(e, Mine(s1, side), Mine(Run(s, evs).value, side), StepOf(side, evs[0]).value,
                  ReadBy(side, evs[1..]), GaveUp(side, s1, evs[1..]));
      } else {
        OthersKeepMine(side, s, evs[0]);
        assert [] + ReadBy(side, evs[1..]) == ReadBy(side, evs[1..]);
      }
    }
  }

  lemma NothingRead(e: End)
    ensures RunReads(e, e, [], false)
  {
    assert e.read + [] == e.read;
  }

  /**
   In every run: the record of what was read is what the connection delivered; what the
   transport took is the first part of it; and with what readLoop still holds it is all of it,
   exactly when no DATA has been given up.
   */
  lemma SentIsPrefixOfRead(side: Role, windowA: nat, capA: nat, windowB: nat, capB: nat, evs: seq<Event>)
    requires Run(Initial(windowA, capA, windowB, capB), evs).Some?
    ensures var s := Initial(windowA, capA, windowB, capB); var e := Mine(Run(s, evs).value, side);
            && e.read == ReadBy(side, evs) && e.sent <= e.read
            && (e.sent + Unsent(e.reader) == e.read <==> !GaveUp(side, s, evs))
  {
    hide Inv, Run, ReadBy, GaveUp;
    var s := Initial(windowA, capA, windowB, capB);
    InitialInv(windowA, capA, windowB, capB);
    RunsRead(side, s, evs);
    assert [] + [] + ReadBy(side, evs) == [] + ReadBy(side, evs) == ReadBy(side, evs);
    hide Initial;
  }

  /** In every state two tunnels can reach. */
  lemma ReachableReads(s: System, side: Role)
    requires Reachable(s)
    ensures ReadState(Mine(s, side))
  {
    hide Run, ReadBy, GaveUp, Inv;
    var windowA: nat, capA: nat, windowB: nat, capB: nat, evs: seq<Event> :|
      Run(Initial(windowA, capA, windowB, capB), evs) == Some(s);
    var s0 := Initial(windowA, capA, windowB, capB);
    InitialInv(windowA, capA, windowB, capB);
    RunsRead(side, s0, evs);
    assert Mine(s0, side).sent + Unsent(Mine(s0, side).reader) == [] == Mine(s0, side).read;
    hide Initial;
  }

  lemma GivesUpToEof(role: Role, a: Action, e: End)
    requires Enabled(role, a, e) && GivesUp(a, e)
    ensures Step(role, a, e).e.reader == AtEof
  {
    hide Logged;
    if a.SendData? {} else {}
  }

  /**
   A DATA that is given up is the last: readLoop goes on to queue its end, and reads and sends
   nothing more, whatever else happens; so no later byte can follow the missing ones.
   */
  lemma NothingFollowsFailure(side: Role, s: System, ev: Event, evs: seq<Event>)
    requires Reachable(s) && CanStep(s, ev) && GivesUpNow(side, s, ev) && Run(Next(s, ev), evs).Some?
    ensures Mine(Next(s, ev), side).reader == AtEof
    ensures Mine(Run(Next(s, ev), evs).value, side).sent == Mine(s, side).sent
    ensures Mine(Run(Next(s, ev), evs).value, side).read == Mine(s, side).read && ReadBy(side, evs) == []
  {
    hide Reachable, Run, ReadBy, GaveUp, Inv, CanStep, Next, GivesUp, Enabled, Step;
    ReachableInv(s);
    NextInv(s, ev);
    NextReads(side, s, ev);
    MineSteps(side, s, ev);
    GivesUpToEof(side, StepOf(side, ev).value, Mine(s, side));
    SpentRun(side, Next(s, ev), evs);
    assert Mine(s, side).read + [] == Mine(s, side).read;
  }

  /** A read that came with the end of the connection was the last one. */
  predicate EndsSoon(r: Reader) { Spent(r) || ((r.AtCredit? || r.AtSend?) && r.last) }

  lemma ReaderEndsSoon(role: Role, a: Action, e: End)
    requires LocalInv(role, e) && Enabled(role, a, e) && EndsSoon(e.reader)
    ensures EndsSoon(Step(role, a, e).e.reader) && DataOf(a) == []
  {
    hide LocalInv, Enabled, Step;
    if OfReader(a) { LoopEndsSoon(role, a, e); } else { KeepsReader(role, a, e); }
  }

  lemma SendEndsSoon(role: Role, res: Result, e: End)
    requires Enabled(role, SendData(res), e) && EndsSoon(e.reader)
    ensures EndsSoon(ReaderStep(role, SendData(res), e).e.reader)
  {
  }

  lemma AcquireEndsSoon(role: Role, e: End)
    requires Enabled(role, Acquire, e) && EndsSoon(e.reader)
    ensures EndsSoon(ReaderStep(role, Acquire, e).e.reader)
  {
  }

  lemma LeaveEndsSoon(role: Role, a: Action, e: End)
    requires Enabled(role, a, e) && (a.AbortCredit? || a.EnqueueEof? || a.DropEof?)
    ensures EndsSoon(ReaderStep(role, a, e).e.reader)
  {
  }

  lemma MustLeave(role: Role, a: Action, e: End)
    requires Enabled(role, a, e) && EndsSoon(e.reader) && OfReader(a)
    ensures a.SendData? || a.Acquire? || a.AbortCredit? || a.EnqueueEof? || a.DropEof?
  {
  }

  lemma LoopEndsSoon(role: Role, a: Action, e: End)
    requires Enabled(role, a, e) && EndsSoon(e.reader) && OfReader(a)
    ensures EndsSoon(Step(role, a, e).e.reader) && DataOf(a) == []
  {
    MustLeave(role, a, e);
    hide Enabled, ReaderStep, EndsSoon;
    match a
    case SendData(res) => SendEndsSoon(role, res, e);
    case Acquire => AcquireEndsSoon(role, e);
    case _ => LeaveEndsSoon(role, a, e);
  }

  lemma KeepsReader(role: Role, a: Action, e: End)
    requires LocalInv(role, e) && Enabled(role, a, e) && !OfReader(a)
    ensures var r := Step(role, a, e).e.reader; r == e.reader || (e.reader == NoReader && r == AwaitReady)
  {
    hide Enabled, Step, LocalInv;
    if OfConnection(a) {
      ConnectionStartsReader(role, a, e);
    } else if OfTransport(a) {
      TransportKeepsReader(role, a, e);
    } else if OfWriter(a) {
      WriterKeepsReader(role, a, e);
    } else {
      RestKeepsReader(role, a, e);
    }
  }

  lemma {:induction false} EndingRun(side: Role, s: System, evs: seq<Event>)
    requires Inv(s) && EndsSoon(Mine(s, side).reader) && Run(s, evs).Some?
    ensures ReadBy(side, evs) == []
    decreases |evs|
  {
    hide Inv, CanStep, Next, LocalInv, Step, Enabled;
    if evs != [] {
      NextInv(s, evs[0]);
      BothLocal(s);
      if StepOf(side, evs[0]).Some? {
        MineSteps(side, s, evs[0]);
        ReaderEndsSoon(side, StepOf(side, evs[0]).value, Mine(s, side));
      } else {
        OthersKeepMine(side, s, evs[0]);
      }
      EndingRun(side, Next(s, evs[0]), evs[1..]);
    }
  }

  /** The step finds the end of the connection, with its last bytes or without. */
  predicate FindsEnd(a: Action) { a.ReadEnd? || (a.ReadBytes? && a.last) }

  lemma EndIsSeen(role: Role, a: Action, e: End)
    requires Enabled(role, a, e) && FindsEnd(a)
    ensures EndsSoon(Step(role, a, e).e.reader)
  {
  }

  /** Nothing is read behind the end of a connection. */
  lemma NothingReadBehindEnd(side: Role, s: System, ev: Event, evs: seq<Event>)
    requires Reachable(s) && CanStep(s, ev) && StepOf(side, ev).Some? && FindsEnd(StepOf(side, ev).value)
    requires Run(Next(s, ev), evs).Some?
    ensures ReadBy(side, evs) == []
  {
    hide Reachable, Run, ReadBy, Inv, CanStep, Next, Step, Enabled, FindsEnd;
    ReachableInv(s);
    NextInv(s, ev);
    MineSteps(side, s, ev);
    EndIsSeen(side, StepOf(side, ev).value, Mine(s, side));
    EndingRun(side, Next(s, ev), evs);
  }

  lemma Wakes(role: Role, e: End)
    requires LocalInv(role, e) && e.phase == Live && e.ready && e.reader == AwaitReady
    ensures Enabled(role, ReaderWake, e) && Step(role, ReaderWake, e).e.reader == AtRead
  {
    hide EofLast, FinState, TraceState, Pristine, Waiting;
  }

  /** A stream that is ready and in the table is read, also while the tunnel is stopping. */
  lemma ReadingStarts(s: System, side: Role)
    requires Reachable(s) && Mine(s, side).phase == Live && Mine(s, side).ready && Mine(s, side).reader == AwaitReady
    ensures var wake := if side == Initiator then ByA(ReaderWake) else ByB(ReaderWake);
            CanStep(s, wake) && Mine(Next(s, wake), side).reader == AtRead
  {
    hide Reachable, Inv, LocalInv, Enabled, Step;
    ReachableInv(s);
    BothLocal(s);
    Wakes(side, Mine(s, side));
  }

  /** A stream torn down before its readLoop has begun to read. */
  predicate NeverRead(e: End) { e.phase == Gone && (e.reader == NoReader || e.reader == AwaitReady || Spent(e.reader)) }

  lemma ReaderStaysOut(role: Role, a: Action, e: End)
    requires Enabled(role, a, e) && OfReader(a) && NeverRead(e)
    ensures NeverRead(Step(role, a, e).e) && DataOf(a) == []
  {
  }

  lemma StaysOut(role: Role, a: Action, e: End)
    requires LocalInv(role, e) && Enabled(role, a, e) && NeverRead(e)
    ensures NeverRead(Step(role, a, e).e) && DataOf(a) == []
  {
    hide LocalInv, Enabled, Step;
    GoneIsFinal(role, a, e);
    if OfReader(a) {
      ReaderStaysOut(role, a, e);
    } else if OfConnection(a) {
      ConnectionStartsReader(role, a, e);
    } else {
      KeepsReader(role, a, e);
    }
  }

  lemma {:induction false} OutRun(side: Role, s: System, evs: seq<Event>)
    requires Inv(s) && NeverRead(Mine(s, side)) && Run(s, evs).Some?
    ensures ReadBy(side, evs) == []
    decreases |evs|
  {
    hide Inv, CanStep, Next, LocalInv, Step, Enabled, NeverRead;
    if evs != [] {
      NextInv(s, evs[0]);
      BothLocal(s);
      if StepOf(side, evs[0]).Some? {
        MineSteps(side, s, evs[0]);
        StaysOut(side, StepOf(side, evs[0]).value, Mine(s, side));
      } else {
        OthersKeepMine(side, s, evs[0]);
      }
      OutRun(side, Next(s, evs[0]), evs[1..]);
    }
  }

  /** Nothing is ever read for it. */
  lemma NothingReadAfterTeardown(side: Role, s: System, evs: seq<Event>)
    requires Reachable(s) && NeverRead(Mine(s, side)) && Run(s, evs).Some?
    ensures ReadBy(side, evs) == []
  {
    hide Reachable, Run, ReadBy, Inv, NeverRead;
    ReachableInv(s);
    OutRun(side, s, evs);
  }

  // --- a failed send ends like any other connection

  /** The last DATA of a side was lost between the read and the send, and the peer is about to handle a clean end. */
  predicate CutBySend(s: System, side: Role) {
    var e := Peer(s, side);
    && s.up && !s.a.done && !s.b.done && e.phase == Live && e.bound && e.writer == AtRemoteFin(FromEOF) && !e.remoteFin
    && !e.gap && e.written == [] && Mine(s, side).sent == [] && Mine(s, side).read == [1]
  }

  function Held1(e: End): End {
    e.(reader := AtSend([1], false), read := e.read + [1], tokens := if e.window > 0 then e.tokens + 1 else e.tokens)
  }

  /** The session refused the DATA and stays; readLoop ends. */
  function Failed1(e: End): End {
    var h := Held1(e);
    h.(reader := AtEof, trace := e.trace + [Data([1])], mute := true,
       stuck := if e.window > 0 then e.stuck + 1 else e.stuck)
  }

  lemma ReadsOne(s: System)
    requires s.up && s.a.reader == AtRead && (s.a.window > 0 ==> s.a.tokens < s.a.window)
    ensures Path(s, s.(a := Held1(s.a)))
  {
    hide Path;
    if s.a.window > 0 { ReadsOnCredit(s, 1); } else { ReadsFreely(s, 1); }
  }

  lemma RefusesOne(e: End)
    requires e.bound
    ensures Goes(Initiator, Held1(e), SendData(Failed), Failed1(e))
  {
  }

  lemma FailsThenEnds(s: System)
    requires s.up && s.ab == [] && s.a.reader == AtRead && Unended(s.a) && Unended(s.b)
    requires (s.a.window > 0 ==> s.a.tokens < s.a.window)
    ensures Path(s, System(Finished(Failed1(s.a)), s.b.(writer := AtRemoteFin(FromEOF)), [], s.ba, true))
  {
    var e := Failed1(s.a).(reader := ReaderDone);
    var s1 := s.(a := Held1(s.a));
    var s2, s3 := s.(a := Failed1(s.a)), s.(a := e.(inbox := [EofItem]));
    var s4 := System(Finished(e), s.b, [Fin(FromEOF)], s.ba, true);
    var b := s.b.(inbox := [FinItem(FromEOF)]);
    assert Unended(e) && Finished(e) == Finished(Failed1(s.a));
    assert [] + [EofItem] == [EofItem] && [] + [Fin(FromEOF)] == [Fin(FromEOF)] == [Fin(FromEOF)] + [];
    assert [] + Carried(Fin(FromEOF)) == [FinItem(FromEOF)] == [FinItem(FromEOF)] + [];
    ReadsOne(s);
    RefusesOne(s.a);
    QueuesEnd(Initiator, Failed1(s.a));
    TakesOne(Responder, b, FinItem(FromEOF), []);
    hide Path, Goes, Held1, Failed1, Finished, Carried;
    SilentA(s, s1, SendData(Failed), Failed1(s.a));
    SilentA(s, s2, EnqueueEof, e.(inbox := [EofItem]));
    Finishes(s3, e);
    PathTrans(s, s3, s4);
    TakesIn(s4, Fin(FromEOF), []);
    PathTrans(s, s4, s4.(b := b, ab := []));
    SilentB(s, s4.(b := b, ab := []), Take, s.b.(writer := AtRemoteFin(FromEOF)));
  }

  lemma CutSeen(windowA: nat, capA: nat, windowB: nat, capB: nat, side: Role)
    requires capA > 0 && capB > 0
    ensures var s := View(Opened(windowA, capA, windowB, capB), side);
            && s.up && s.ab == [] && s.a.reader == AtRead && Unended(s.a) && Unended(s.b)
            && (s.a.window > 0 ==> s.a.tokens < s.a.window)
            && CutBySend(View(System(Finished(Failed1(s.a)), s.b.(writer := AtRemoteFin(FromEOF)), [], s.ba, true),
                side), side)
  {
    assert [] + [1] == [1];
    if side == Initiator {} else {}
  }

  /**
   In every configuration and either direction, without any Stop: a send fails, and the peer's
   connection still sees a clean end after missing bytes.
   */
  lemma CutBySendIsReachable(side: Role, windowA: nat, capA: nat, windowB: nat, capB: nat)
    requires capA > 0 && capB > 0
    ensures exists t: System :: Path(Initial(windowA, capA, windowB, capB), t) && CutBySend(t, side)
  {
    var s := View(Opened(windowA, capA, windowB, capB), side);
    var u := System(Finished(Failed1(s.a)), s.b.(writer := AtRemoteFin(FromEOF)), [], s.ba, true);
    CutSeen(windowA, capA, windowB, capB, side);
    hide Path, Opened, View, Initial, CutBySend, Unended, Finished, Failed1;
    FailsThenEnds(s);
    FromTheStart(windowA, capA, windowB, capB, side, u);
  }
}
