/**
 One endpoint of one forwarded stream (pkg/tunnel/tunnel.go), as a record, and the
 atomic steps its goroutines take: the accept or dial goroutine, the transport's
 receive goroutine, readLoop, writeLoop and the half-close timer. Each step is one
 lock section, one channel operation or one I/O operation of the source, so that a
 run of steps is an interleaving of those goroutines.
 */
module StreamEndpoint {
  import opened Basics
  import opened Pipe

  datatype Frame = Connect | SynAck(ok: bool) | Data(payload: Bytes) | DataAck | Fin(origin: Origin)

  // The optional last frame of removeStream.
  datatype Final = NoFrame | FinFrame(origin: Origin) | RefuseFrame

  datatype Role = Initiator | Responder
  datatype Boot = NoBoot | AtConnect | AtDial | AtSynAck | AtReady | Booted
  datatype Reader = NoReader | AwaitReady | AtRead | AtCredit(payload: Bytes, last: bool)
                  | AtSend(payload: Bytes, last: bool) | AtEof | ReaderDone
  datatype Writer = NoWriter | AwaitStart | Idle | AtWrite(payload: Bytes) | AtAck | AtLocalEof | AtSendFin
                  | AtArm | AtRemoteFin(origin: Origin) | AtRemove(final: Final) | WriterDone
  datatype Timer = Off | Armed | Firing(final: Final) | Fired
  datatype Result = Ok | Failed

  /**
   phase is membership in the stream table (Live) and the closed channel (Gone); bound is
   the pool's binding for the stream; hand is the item the transport's goroutine holds
   until the inbox takes it. read, sent, written, trace, gap, stuck, waste and mute are
   history: the bytes the local connection gave to readLoop, the bytes the transport took
   from readLoop, the bytes the local connection took, the frames the pool routed to a
   session, whether an enqueue gave up a DATA item of a live stream because the tunnel was
   stopping, the own credits a failed send left taken, the peer's credits this side will
   never give back, and whether some frame of this side was refused or failed.
   */
  datatype End = End(
    window: nat, cap: nat,
    phase: Phase, bound: bool, boot: Boot, conn: bool, ready: bool, done: bool,
    localFin: bool, remoteFin: bool, timer: Timer,
    reader: Reader, writer: Writer, inbox: seq<Item>, hand: Option<Item>, tokens: nat,
    read: Bytes, sent: Bytes, written: Bytes, trace: seq<Frame>, gap: bool, stuck: nat, waste: nat, mute: bool)

  function Fresh(window: nat, cap: nat): End {
    End(window, cap, Absent, false, NoBoot, false, false, false, false, false, Off,
        NoReader, NoWriter, [], None, 0, [], [], [], [], false, 0, 0, false)
  }

  /** The endpoint after a step, with the frame a session took from it, if any. */
  datatype Out = Out(e: End, frames: seq<Frame>)

  datatype Action =
    | Accept | SendConnect(session: bool, res: Result)
    | DialFailed(res: Result) | DialDone | SendSynAck(res: Result) | StartReader
    | Deliver(frame: Frame, accept: bool, bind: bool, res: Result) | Enqueue | DropHand
    | ReaderWake | ReadBytes(data: Bytes, last: bool) | ReadEnd | Acquire | AbortCredit
    | SendData(res: Result) | EnqueueEof | DropEof
    | WriterStart | WriterExit | Take | WriteOk | WriteFail(n: nat) | SendAck(res: Result)
    | LocalEof | SendFin(res: Result) | Arm | RemoteFin | WriterRemove(res: Result)
    | TimerFire | TimerRemove(res: Result)
    | SessionRemoved | CloseStream | StopSignal

  predicate Closing(e: End) { e.phase == Gone || e.done }

  predicate Enabled(role: Role, a: Action, e: End) {
    match a
    case Accept => role == Initiator && e.phase == Absent
    case SendConnect(_, _) => e.boot == AtConnect
    case DialFailed(_) => e.boot == AtDial
    case DialDone => e.boot == AtDial
    case SendSynAck(_) => e.boot == AtSynAck
    case StartReader => e.boot == AtReady
    case Deliver(_, _, _, _) => e.hand == None
    case Enqueue => e.hand.Some? && |e.inbox| < e.cap
    case DropHand => e.hand.Some? && Closing(e)
    case ReaderWake => e.reader == AwaitReady && (e.ready || e.phase == Gone)
    case ReadBytes(data, _) => e.reader == AtRead && data != []
    case ReadEnd => e.reader == AtRead
    case Acquire => e.reader.AtCredit? && e.tokens < e.window
    case AbortCredit => e.reader.AtCredit? && Closing(e)
    case SendData(_) => e.reader.AtSend?
    case EnqueueEof => e.reader == AtEof && |e.inbox| < e.cap
    case DropEof => e.reader == AtEof && Closing(e)
    case WriterStart => e.writer == AwaitStart && e.ready
    case WriterExit => (e.writer == AwaitStart && e.phase == Gone) || (e.writer == Idle && Closing(e))
    case Take => e.writer == Idle && e.inbox != []
    case WriteOk => e.writer.AtWrite?
    case WriteFail(n) => e.writer.AtWrite? && n <= |e.writer.payload|
    case SendAck(_) => e.writer == AtAck
    case LocalEof => e.writer == AtLocalEof
    case SendFin(_) => e.writer == AtSendFin
    case Arm => e.writer == AtArm
    case RemoteFin => e.writer.AtRemoteFin?
    case WriterRemove(_) => e.writer.AtRemove?
    case TimerFire => e.timer == Armed
    case TimerRemove(_) => e.timer.Firing?
    case SessionRemoved => true
    case CloseStream => e.boot != AtConnect
    case StopSignal => true
  }

  /** The pool refuses a frame of an unbound stream; otherwise the session takes it or fails. */
  predicate Sends(e: End, res: Result) { e.bound && res == Ok }

  function Logged(e: End, f: Frame): seq<Frame> { if e.bound then e.trace + [f] else e.trace }

  function Passed(e: End, f: Frame, res: Result): seq<Frame> { if Sends(e, res) then [f] else [] }

  function Muted(e: End, res: Result): bool { e.mute || !Sends(e, res) }

  /** removeStream: effective once, and the binding goes with the table entry. */
  function Remove(e: End, final: Final, res: Result): (o: Out)
    ensures e.phase != Live ==> o == Out(e, [])
    ensures e.phase == Live ==> o.e.phase == Gone && o.e.timer == e.timer && o.e.writer == e.writer
  {
    if e.phase != Live then Out(e, [])
    else if final == NoFrame then
      Out(e.(phase := Gone, localFin := true, remoteFin := true, ready := true, bound := false), [])
    else
      var f := if final.FinFrame? then Fin(final.origin) else SynAck(false);
      Out(e.(phase := Gone, localFin := true, remoteFin := true, ready := true, bound := false,
             trace := Logged(e, f), mute := Muted(e, res)), Passed(e, f, res))
  }

  /** onACK takes a token out of the semaphore, if there is one. */
  function OnAck(e: End): End {
    e.(tokens := if e.window > 0 && e.tokens > 0 then e.tokens - 1 else e.tokens)
  }

  /** HandleFrame up to the enqueue; a CONNECT is bound before it is dispatched. */
  function Receive(e: End, f: Frame, accept: bool, bind: bool, res: Result): (o: Out)
    ensures f != Connect && !f.SynAck? ==> o.e.phase == e.phase && o.e.boot == e.boot && o.e.ready == e.ready
    ensures f != Connect ==> o.e.trace == e.trace && o.frames == []
    ensures e.phase == Live ==> o.e.writer == e.writer
  {
    match f
    case Connect =>
      if e.phase != Absent then Out(e, [])
      else if accept then Out(e.(phase := Live, bound := bind, boot := AtDial, writer := AwaitStart), [])
      else
        var b := e.(bound := bind);
        Out(e.(bound := false, trace := Logged(b, SynAck(false)), mute := Muted(b, res)), Passed(b, SynAck(false), res))
    case SynAck(ok) =>
      if e.phase != Live then Out(e, [])
      else if !ok then Remove(e, NoFrame, res)
      else Out(e.(ready := true), [])
    case Data(p) =>
      if e.phase != Live then Out(e.(waste := e.waste + 1), []) else Out(e.(hand := Some(DataItem(p))), [])
    case DataAck => if e.phase != Live then Out(e, []) else Out(OnAck(e), [])
    case Fin(o) => if e.phase != Live then Out(e, []) else Out(e.(hand := Some(FinItem(o))), [])
  }

  predicate OfConnection(a: Action) {
    a.Accept? || a.SendConnect? || a.DialFailed? || a.DialDone? || a.SendSynAck? || a.StartReader?
  }

  predicate OfTransport(a: Action) { a.Deliver? || a.Enqueue? || a.DropHand? }

  predicate OfReader(a: Action) {
    || a.ReaderWake? || a.ReadBytes? || a.ReadEnd? || a.Acquire? || a.AbortCredit? || a.SendData?
    || a.EnqueueEof? || a.DropEof?
  }

  predicate OfWriter(a: Action) {
    || a.WriterStart? || a.WriterExit? || a.Take? || a.WriteOk? || a.WriteFail? || a.SendAck? || a.LocalEof?
    || a.SendFin? || a.Arm? || a.RemoteFin? || a.WriterRemove?
  }

  /** The dialled connection is kept unless the stream is gone by now. */
  function Dialled(e: End): End {
    if e.phase == Gone then e.(boot := Booted) else e.(boot := AtSynAck, conn := true)
  }

  /** acceptLoop for the initiator, dialStream for the responder. */
  function ConnectionStep(role: Role, a: Action, e: End): Out
    requires OfConnection(a) && Enabled(role, a, e)
  {
    match a
    case Accept => Out(e.(phase := Live, conn := true, boot := AtConnect, writer := AwaitStart), [])
    case SendConnect(session, res) =>
      if !session then Remove(e.(boot := Booted, mute := true), NoFrame, res)
      else
        var b := e.(boot := Booted, bound := true, trace := e.trace + [Connect]);
        if res == Ok then Out(b.(reader := AwaitReady), [Connect]) else Remove(b.(mute := true), NoFrame, res)
    // dialStream
    case DialFailed(res) => Remove(e.(boot := Booted), RefuseFrame, res)
    case DialDone => Out(Dialled(e), [])
    case SendSynAck(res) =>
      Out(e.(boot := AtReady, trace := Logged(e, SynAck(true)), mute := Muted(e, res)), Passed(e, SynAck(true), res))
    case StartReader => Out(e.(boot := Booted, ready := true, reader := AwaitReady), [])
  }

  /** HandleFrame: look the stream up, then enqueue. */
  function TransportStep(role: Role, a: Action, e: End): Out
    requires OfTransport(a) && Enabled(role, a, e)
  {
    match a
    case Deliver(f, accept, bind, res) => Receive(e, f, accept, bind, res)
    case Enqueue => Out(e.(inbox := e.inbox + [e.hand.value], hand := None), [])
    case DropHand =>
      Out(e.(hand := None, waste := e.waste + IsData(e.hand.value),
             gap := e.gap || (e.phase == Live && e.hand.value.DataItem?)), [])
  }

  function ReaderStep(role: Role, a: Action, e: End): Out
    requires OfReader(a) && Enabled(role, a, e)
  {
    match a
    case ReaderWake => Out(e.(reader := if e.phase != Gone && e.conn then AtRead else ReaderDone), [])
    case ReadBytes(data, last) =>
      Out(e.(read := e.read + data, reader := if e.window > 0 then AtCredit(data, last) else AtSend(data, last)), [])
    case ReadEnd => Out(e.(reader := AtEof), [])
    case Acquire => Out(e.(tokens := e.tokens + 1, reader := AtSend(e.reader.payload, e.reader.last)), [])
    case AbortCredit => Out(e.(reader := AtEof), [])
    case SendData(res) =>
      var f := Data(e.reader.payload);
      if Sends(e, res)
      then Out(e.(trace := e.trace + [f], sent := e.sent + e.reader.payload,
                  reader := if e.reader.last then AtEof else AtRead), [f])
      else Out(e.(trace := Logged(e, f), mute := true, reader := AtEof,
                  stuck := if e.window > 0 then e.stuck + 1 else e.stuck), [])
    case EnqueueEof => Out(e.(inbox := e.inbox + [EofItem], reader := ReaderDone), [])
    case DropEof => Out(e.(reader := ReaderDone), [])
  }

  function WriterStep(role: Role, a: Action, e: End): Out
    requires OfWriter(a) && Enabled(role, a, e)
  {
    match a
    case WriterStart => Out(e.(writer := Idle), [])
    case WriterExit => Out(e.(writer := WriterDone), [])
    case Take =>
      var w := match e.inbox[0]
               case DataItem(p) => if e.conn then AtWrite(p) else WriterDone
               case FinItem(o) => AtRemoteFin(o)
               case EofItem => AtLocalEof;
      Out(e.(inbox := e.inbox[1..], writer := w, waste := if w.WriterDone? then e.waste + 1 else e.waste), [])
    case WriteOk => Out(e.(written := e.written + e.writer.payload, writer := AtAck), [])
    case WriteFail(n) =>
      Out(e.(written := e.written + e.writer.payload[..n], waste := e.waste + 1,
             writer := AtRemove(FinFrame(FromWriteFailure))), [])
    case SendAck(res) =>
      Out(e.(trace := Logged(e, DataAck), mute := Muted(e, res), writer := Idle,
             waste := if Sends(e, res) then e.waste else e.waste + 1), Passed(e, DataAck, res))
    case LocalEof =>
      if e.localFin then Out(e.(writer := Idle), [])
      else Out(e.(localFin := true, writer := if e.remoteFin then AtRemove(FinFrame(FromEOF)) else AtSendFin), [])
    case SendFin(res) =>
      Out(e.(trace := Logged(e, Fin(FromEOF)), mute := Muted(e, res), writer := AtArm), Passed(e, Fin(FromEOF), res))
    case Arm => Out(e.(timer := Armed, writer := Idle), [])
    case RemoteFin =>
      if e.remoteFin then Out(e.(writer := Idle), [])
      else Out(e.(remoteFin := true, writer := if e.localFin then AtRemove(NoFrame) else AtArm), [])
    case WriterRemove(res) =>
      var o := Remove(e, e.writer.final, res); o.(e := o.e.(writer := WriterDone))
  }

  function Step(role: Role, a: Action, e: End): Out
    requires Enabled(role, a, e)
  {
    if OfConnection(a) then ConnectionStep(role, a, e)
    else if OfTransport(a) then TransportStep(role, a, e)
    else if OfReader(a) then ReaderStep(role, a, e)
    else if OfWriter(a) then WriterStep(role, a, e)
    else
      match a
      // armHalfCloseTimeout's callback
      case TimerFire =>
        Out(e.(localFin := true, timer := Firing(if e.localFin then NoFrame else FinFrame(FromTimer))), [])
      case TimerRemove(res) =>
        var o := Remove(e, e.timer.final, res); o.(e := o.e.(timer := Fired))
      // the pool and Stop
      case SessionRemoved => Out(e.(bound := false), [])
      case CloseStream => Remove(e, NoFrame, Ok)
      case StopSignal => Out(e.(done := true), [])
  }

  /** The step a is possible, gives e2 and sends nothing. */
  predicate Goes(role: Role, e: End, a: Action, e2: End) { Enabled(role, a, e) && Step(role, a, e) == Out(e2, []) }
}
