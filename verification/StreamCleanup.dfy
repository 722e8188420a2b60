/**
 What is left of a stream after its teardown: every goroutine that still works on it comes to
 an end by itself, whatever the peer, the link and the inbox do.
 */
module StreamCleanup {
  import opened Basics
  import opened Pipe
  import opened StreamEndpoint
  import opened StreamLocal
  import opened StreamSystem
  import opened StreamReads
  import opened StreamHalfClose

  /**
   A step of one of the stream's own goroutines. Frames that still come in find no stream, and
   the local connection, closed by the teardown, gives nothing more.
   */
  predicate Own(a: Action) {
    !a.Deliver? && !a.ReadBytes? && !a.SessionRemoved? && !a.CloseStream? && !a.StopSignal?
  }

  /** Nobody works on the stream any more: set-up, readLoop, writeLoop, the timer, and the transport's goroutine. */
  predicate AllEnded(e: End) {
    && e.boot == Booted && (e.reader == ReaderDone || e.reader == NoReader) && e.writer == WriterDone
    && e.hand == None && (e.timer == Off || e.timer == Fired)
  }

  // --- how much is left to do

  function BootChores(b: Boot): nat {
    match b case AtConnect => 60 case AtDial => 40 case AtSynAck => 30 case AtReady => 20 case _ => 0
  }

  function ReaderChores(r: Reader): nat {
    match r
    case AwaitReady => 12
    case AtCredit(_, _) => 11
    case AtSend(_, _) => 10
    case AtRead => 9
    case AtEof => 8
    case _ => 0
  }

  function WriterChores(w: Writer): nat {
    match w
    case AwaitStart => 2
    case Idle => 1
    case AtWrite(_) => 5
    case AtAck => 3
    case AtLocalEof => 3
    case AtRemoteFin(_) => 3
    case AtSendFin => 8
    case AtArm => 7
    case AtRemove(_) => 1
    case _ => 0
  }

  function TimerChores(t: Timer): nat { match t case Armed => 3 case Firing(_) => 2 case _ => 0 }

  function Chores(e: End): nat {
    BootChores(e.boot) + ReaderChores(e.reader) + WriterChores(e.writer) + TimerChores(e.timer)
    + 6 * |e.inbox| + (if e.hand.Some? then 7 else 0)
  }

  predicate Lower(e: End, e2: End) { e2.phase == Gone && Chores(e2) < Chores(e) }

  // --- every step of them leaves less to do

  lemma GoneFacts(role: Role, e: End)
    requires LocalInv(role, e) && e.phase == Gone
    ensures e.localFin && e.remoteFin && e.ready && e.boot != AtConnect && e.boot != NoBoot && e.writer != NoWriter
    ensures e.boot != Booted ==> e.reader == NoReader
    ensures e.writer == AtArm ==> e.timer == Off
  {
    hide EofLast, TraceState, Pristine, Waiting;
  }

  lemma SetUpLowers(role: Role, a: Action, e: End)
    requires e.phase == Gone && Enabled(role, a, e) && OfConnection(a) && e.boot != AtConnect
    requires e.boot != Booted ==> e.reader == NoReader
    ensures Lower(e, Step(role, a, e).e)
  {
    if a.DialFailed? {} else if a.SendSynAck? {} else if a.StartReader? {} else {}
  }

  lemma HandLowers(role: Role, a: Action, e: End)
    requires e.phase == Gone && Enabled(role, a, e) && (a.Enqueue? || a.DropHand?)
    ensures Lower(e, Step(role, a, e).e)
  {
  }

  lemma ReadLowers(role: Role, a: Action, e: End)
    requires e.phase == Gone && Enabled(role, a, e) && (a.ReaderWake? || a.ReadEnd?)
    ensures Lower(e, Step(role, a, e).e)
  {
  }

  lemma CreditLowers(role: Role, a: Action, e: End)
    requires e.phase == Gone && Enabled(role, a, e) && (a.Acquire? || a.AbortCredit?)
    ensures Lower(e, Step(role, a, e).e)
  {
  }

  lemma EofLowers(role: Role, a: Action, e: End)
    requires e.phase == Gone && Enabled(role, a, e) && (a.EnqueueEof? || a.DropEof?)
    ensures Lower(e, Step(role, a, e).e)
  {
  }

  lemma ReaderLowers(role: Role, a: Action, e: End)
    requires e.phase == Gone && Enabled(role, a, e) && OfReader(a) && !a.ReadBytes?
    ensures Lower(e, Step(role, a, e).e)
  {
    hide Enabled, Step, Lower;
    if a.SendData? {
      if Sends(e, a.res) { SentLowers(role, a, e); } else { UnsentLowers(role, a, e); }
    } else if a.Acquire? || a.AbortCredit? {
      CreditLowers(role, a, e);
    } else if a.EnqueueEof? || a.DropEof? {
      EofLowers(role, a, e);
    } else {
      ReadLowers(role, a, e);
    }
  }

  lemma SentLowers(role: Role, a: Action, e: End)
    requires e.phase == Gone && Enabled(role, a, e) && a.SendData? && Sends(e, a.res)
    ensures Lower(e, Step(role, a, e).e)
  {
  }

  lemma UnsentLowers(role: Role, a: Action, e: End)
    requires e.phase == Gone && Enabled(role, a, e) && a.SendData? && !Sends(e, a.res)
    ensures Lower(e, Step(role, a, e).e)
  {
    hide Logged;
  }

  lemma TakeLowers(role: Role, e: End, i: Item, rest: seq<Item>)
    requires e.phase == Gone && e.writer == Idle && e.inbox == [i] + rest
    ensures Enabled(role, Take, e) && Lower(e, Step(role, Take, e).e)
  {
    if i.DataItem? { TakesWork(role, e, i, rest); } else { TakesOne(role, e, i, rest); }
    hide Step, Enabled;
  }

  lemma TakesWork(role: Role, e: End, i: Item, rest: seq<Item>)
    requires e.writer == Idle && e.inbox == [i] + rest && i.DataItem?
    ensures Enabled(role, Take, e)
    ensures Step(role, Take, e).e == e.(inbox := rest, writer := if e.conn then AtWrite(i.payload) else WriterDone,
            waste := if e.conn then e.waste else e.waste + 1)
  {
    assert e.inbox[1..] == rest;
  }

  lemma CanTake(role: Role, e: End)
    requires Enabled(role, Take, e)
    ensures e.writer == Idle && e.inbox != []
  {
  }

  lemma WriteLowers(role: Role, a: Action, e: End)
    requires e.phase == Gone && Enabled(role, a, e)
    requires a.WriterStart? || a.WriterExit? || a.WriteOk? || a.WriteFail? || a.SendAck?
    ensures Lower(e, Step(role, a, e).e)
  {
    hide Logged, Muted, Passed;
  }

  lemma EndLowers(role: Role, a: Action, e: End)
    requires e.phase == Gone && Enabled(role, a, e) && (a.LocalEof? || a.SendFin? || a.Arm? || a.RemoteFin?)
    requires e.localFin && e.remoteFin && (e.writer == AtArm ==> e.timer == Off)
    ensures Lower(e, Step(role, a, e).e)
  {
    hide Logged, Muted, Passed;
  }

  lemma RemovalLowers(role: Role, a: Action, e: End)
    requires e.phase == Gone && Enabled(role, a, e) && (a.WriterRemove? || a.TimerRemove?)
    ensures Lower(e, Step(role, a, e).e)
  {
  }

  lemma FireLowers(role: Role, e: End)
    requires e.phase == Gone && Enabled(role, TimerFire, e)
    ensures Lower(e, Step(role, TimerFire, e).e)
  {
  }

  lemma OwnLowers(role: Role, a: Action, e: End)
    requires LocalInv(role, e) && e.phase == Gone && Enabled(role, a, e) && Own(a)
    ensures Lower(e, Step(role, a, e).e)
  {
    hide LocalInv, Step, Enabled, Lower;
    GoneFacts(role, e);
    if OfConnection(a) {
      SetUpLowers(role, a, e);
    } else if OfTransport(a) {
      HandLowers(role, a, e);
    } else if OfReader(a) {
      ReaderLowers(role, a, e);
    } else if a.Take? {
      CanTake(role, e);
      assert e.inbox == [e.inbox[0]] + e.inbox[1..];
      TakeLowers(role, e, e.inbox[0], e.inbox[1..]);
    } else if a.WriterRemove? || a.TimerRemove? {
      RemovalLowers(role, a, e);
    } else if a.LocalEof? || a.SendFin? || a.Arm? || a.RemoteFin? {
      EndLowers(role, a, e);
    } else if OfWriter(a) {
      WriteLowers(role, a, e);
    } else {
      FireLowers(role, e);
    }
  }

  // --- and there is one until all have ended

  lemma SetUpGoesOn(role: Role, e: End) returns (a: Action)
    requires e.boot == AtDial || e.boot == AtSynAck || e.boot == AtReady
    ensures Own(a) && Enabled(role, a, e)
  {
    a := if e.boot == AtDial then DialDone else if e.boot == AtSynAck then SendSynAck(Ok) else StartReader;
  }

  lemma ReaderGoesOn(role: Role, e: End) returns (a: Action)
    requires e.phase == Gone && e.reader != ReaderDone && e.reader != NoReader
    ensures Own(a) && Enabled(role, a, e)
  {
    a := match e.reader
      case AwaitReady => ReaderWake
      case AtCredit(_, _) => AbortCredit
      case AtSend(_, _) => SendData(Failed)
      case AtRead => ReadEnd
      case _ => DropEof;
  }

  lemma WriterGoesOn(role: Role, e: End) returns (a: Action)
    requires e.phase == Gone && e.writer != WriterDone && e.writer != NoWriter
    ensures Own(a) && Enabled(role, a, e)
  {
    a := match e.writer
      case AwaitStart => WriterExit
      case Idle => WriterExit
      case AtWrite(_) => WriteFail(0)
      case AtAck => SendAck(Failed)
      case AtLocalEof => LocalEof
      case AtRemoteFin(_) => RemoteFin
      case AtSendFin => SendFin(Failed)
      case AtArm => Arm
      case _ => WriterRemove(Failed);
  }

  lemma RestGoesOn(role: Role, e: End) returns (a: Action)
    requires e.phase == Gone && (e.hand.Some? || e.timer == Armed || e.timer.Firing?)
    ensures Own(a) && Enabled(role, a, e)
  {
    a := if e.hand.Some? then DropHand else if e.timer == Armed then TimerFire else TimerRemove(Failed);
  }

  /** Without room in the inbox, without credit, with every local write and every send failing. */
  lemma SomebodyGoesOn(role: Role, e: End) returns (a: Action)
    requires LocalInv(role, e) && e.phase == Gone && !AllEnded(e)
    ensures Own(a) && Enabled(role, a, e)
  {
    hide LocalInv, Own, Enabled;
    GoneFacts(role, e);
    if e.boot != Booted {
      a := SetUpGoesOn(role, e);
    } else if e.reader != ReaderDone && e.reader != NoReader {
      a := ReaderGoesOn(role, e);
    } else if e.writer != WriterDone {
      a := WriterGoesOn(role, e);
    } else {
      a := RestGoesOn(role, e);
    }
  }

  // --- whole runs

  predicate AllOwn(acts: seq<Action>) { forall a <- acts :: Own(a) }

  ghost predicate AtRest(role: Role, e: End) { forall a: Action :: Own(a) ==> !Enabled(role, a, e) }

  lemma PlayStep(role: Role, e: End, acts: seq<Action>)
    requires acts != [] && AllOwn(acts) && Play(role, e, acts).Some?
    ensures Own(acts[0]) && AllOwn(acts[1..]) && Enabled(role, acts[0], e)
    ensures var e1 := Step(role, acts[0], e).e;
            Play(role, e1, acts[1..]).Some? && Play(role, e1, acts[1..]).value.e == Play(role, e, acts).value.e
  {
    hide Own, Enabled, Step;
    assert forall a <- acts[1..] :: a in acts;
  }

  lemma {:induction false} OwnRun(role: Role, e: End, acts: seq<Action>)
    requires LocalInv(role, e) && e.phase == Gone && AllOwn(acts) && Play(role, e, acts).Some?
    ensures var e2 := Play(role, e, acts).value.e;
            LocalInv(role, e2) && e2.phase == Gone && |acts| + Chores(e2) <= Chores(e)
    decreases |acts|
  {
    hide LocalInv, Step, Enabled, Own, AllOwn, Chores;
    if acts != [] {
      PlayStep(role, e, acts);
      NotDelivered(acts[0]);
      StepKeeps(role, acts[0], e);
      OwnLowers(role, acts[0], e);
      OwnRun(role, Step(role, acts[0], e).e, acts[1..]);
    }
  }

  lemma NotDelivered(a: Action)
    requires Own(a)
    ensures !a.Deliver?
  {
  }

  /**
   No goroutine is left behind. From every reachable state in which a side's stream has been torn
   down, the steps of its goroutines, in any order, come to an end after a bounded number, and
   then all of them have ended; until then one of them always has a step, and it needs neither the
   peer nor the link nor room nor credit.
   */
  lemma GoroutinesEnd(s: System, side: Role, acts: seq<Action>)
    requires Reachable(s) && Mine(s, side).phase == Gone && AllOwn(acts) && Play(side, Mine(s, side), acts).Some?
    ensures |acts| <= Chores(Mine(s, side))
    ensures var e := Play(side, Mine(s, side), acts).value.e;
            && e.phase == Gone && (AtRest(side, e) <==> AllEnded(e))
            && (AllEnded(e) || exists a: Action :: Own(a) && Enabled(side, a, e) && Taken(a) == [])
  {
    hide Reachable, Inv, LocalInv, Play, Chores, Own, AllOwn, Enabled;
    ReachableInv(s);
    BothLocal(s);
    OwnRun(side, Mine(s, side), acts);
    var e := Play(side, Mine(s, side), acts).value.e;
    if AllEnded(e) {
      EndedIsAtRest(side, e);
    } else {
      var a := SomebodyGoesOn(side, e);
      NotDelivered(a);
    }
  }

  lemma EndedIsAtRest(role: Role, e: End)
    requires LocalInv(role, e) && e.phase == Gone && AllEnded(e)
    ensures AtRest(role, e)
  {
    hide LocalInv;
    GoneFacts(role, e);
  }

  // --- a lost session

  /** Past its CONNECT, and without a session to send on. */
  predicate CutOff(e: End) { !e.bound && e.phase != Absent && e.boot != AtConnect && e.boot != NoBoot }

  predicate Silent(e: End, e2: End) { CutOff(e2) && e2.trace == e.trace }

  lemma ReceiveCutOff(e: End, f: Frame, accept: bool, bind: bool, res: Result)
    requires CutOff(e)
    ensures Silent(e, Receive(e, f, accept, bind, res).e)
  {
    if f.Connect? {} else if f.SynAck? {} else if f.Data? {} else {}
  }

  lemma TransportCutOff(role: Role, a: Action, e: End)
    requires Enabled(role, a, e) && OfTransport(a) && CutOff(e)
    ensures Silent(e, Step(role, a, e).e)
  {
    if a.Deliver? {
      ReceiveCutOff(e, a.frame, a.accept, a.bind, a.res);
      hide Receive;
    } else if a.Enqueue? {} else {}
  }

  lemma ConnectionCutOff(role: Role, a: Action, e: End)
    requires Enabled(role, a, e) && OfConnection(a) && CutOff(e)
    ensures Silent(e, ConnectionStep(role, a, e).e)
  {
    if a.DialFailed? {} else if a.SendSynAck? {} else {}
  }

  lemma ReaderCutOff(role: Role, a: Action, e: End)
    requires Enabled(role, a, e) && OfReader(a) && CutOff(e)
    ensures Silent(e, ReaderStep(role, a, e).e)
  {
    if a.SendData? {} else {}
  }

  lemma WriterCutOff(role: Role, a: Action, e: End)
    requires Enabled(role, a, e) && OfWriter(a) && CutOff(e)
    ensures Silent(e, WriterStep(role, a, e).e)
  {
    if a.WriterRemove? {} else if a.SendAck? || a.SendFin? {} else {}
  }

  lemma RestCutOff(role: Role, a: Action, e: End)
    requires Enabled(role, a, e) && !OfConnection(a) && !OfTransport(a) && !OfReader(a) && !OfWriter(a) && CutOff(e)
    ensures Silent(e, Step(role, a, e).e)
  {
    if a.TimerRemove? {} else if a.CloseStream? {} else {}
  }

  lemma StepCutOff(role: Role, a: Action, e: End)
    requires Enabled(role, a, e) && CutOff(e)
    ensures Silent(e, Step(role, a, e).e)
  {
    hide Enabled, Silent, CutOff;
    if OfConnection(a) {
      ConnectionCutOff(role, a, e);
      hide ConnectionStep;
    } else if OfTransport(a) {
      TransportCutOff(role, a, e);
      hide Step;
    } else if OfReader(a) {
      ReaderCutOff(role, a, e);
      hide ReaderStep;
    } else if OfWriter(a) {
      WriterCutOff(role, a, e);
      hide WriterStep;
    } else {
      RestCutOff(role, a, e);
      hide Step;
    }
  }

  lemma {:induction false} CutOffRun(s: System, side: Role, evs: seq<Event>)
    requires CutOff(Mine(s, side)) && Run(s, evs).Some?
    ensures Silent(Mine(s, side), Mine(Run(s, evs).value, side))
    decreases |evs|
  {
    hide CanStep, Next, Step, Enabled, CutOff;
    if evs != [] {
      if StepOf(side, evs[0]).Some? {
        MineSteps(side, s, evs[0]);
        StepCutOff(side, StepOf(side, evs[0]).value, Mine(s, side));
      } else {
        OthersKeepMine(side, s, evs[0]);
      }
      CutOffRun(Next(s, evs[0]), side, evs[1..]);
    }
  }

  function EventOf(side: Role, a: Action): Event { if side == Initiator then ByA(a) else ByB(a) }

  lemma Loses(role: Role, e: End)
    ensures Enabled(role, SessionRemoved, e)
    ensures Step(role, SessionRemoved, e) == Out(e.(bound := false), [])
  {
  }

  lemma Closes(role: Role, e: End)
    requires e.boot != AtConnect && !e.bound
    ensures Enabled(role, CloseStream, e) && Step(role, CloseStream, e).frames == []
    ensures var e2 := Step(role, CloseStream, e).e;
            !e2.bound && e2.trace == e.trace && e2.phase == (if e.phase == Live then Gone else e.phase)
  {
  }

  /**
   The session of a stream is lost. That can happen at any moment; from then on the stream routes
   nothing, over any run, whatever its goroutines try; and closing it, which is possible at once,
   takes it out of the table without a frame.
   */
  lemma LostSessionSilences(s: System, side: Role, evs: seq<Event>)
    requires Mine(s, side).phase == Live && Mine(s, side).boot != AtConnect && Mine(s, side).boot != NoBoot
    ensures CanStep(s, EventOf(side, SessionRemoved))
    ensures var t := Next(s, EventOf(side, SessionRemoved));
            && !Mine(t, side).bound && Mine(t, side).phase == Live && Peer(t, side) == Peer(s, side)
            && (Run(t, evs).Some? ==>
                  Mine(Run(t, evs).value, side).trace == Mine(s, side).trace && !Mine(Run(t, evs).value, side).bound)
            && CanStep(t, EventOf(side, CloseStream))
            && var u := Next(t, EventOf(side, CloseStream));
               && Mine(u, side).phase == Gone && Mine(u, side).trace == Mine(s, side).trace
               && u.ab == s.ab && u.ba == s.ba && Peer(u, side) == Peer(s, side)
  {
    hide Step, Enabled, Run;
    Loses(side, Mine(s, side));
    var t := Next(s, EventOf(side, SessionRemoved));
    assert s.ab + [] == s.ab && s.ba + [] == s.ba;
    Closes(side, Mine(t, side));
    if Run(t, evs).Some? { CutOffRun(t, side, evs); }
  }
}
