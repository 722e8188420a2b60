/** What every step of one endpoint keeps, whatever its peer does. */
module StreamLocal {
  import opened Basics
  import opened Pipe
  import opened StreamEndpoint

  /** The frames of one side of a stream, as a small automaton. */
  datatype Progress = Start | Open | HalfFin(origin: Origin) | FullFin | Refused | Bad

  function Advance(role: Role, p: Progress, f: Frame): Progress {
    match p
    case Start =>
      if f == Connect && role == Initiator then Open
      else if f.SynAck? && role == Responder then (if f.ok then Open else Refused)
      else Bad
    case Open => if f.Data? || f.DataAck? then Open else if f.Fin? then HalfFin(f.origin) else Bad
    case HalfFin(FromEOF) => if f.DataAck? then p else if f == Fin(FromWriteFailure) then FullFin else Bad
    case _ => Bad
  }

  /** The frame that opens a side's direction. */
  function Opener(role: Role): Frame { if role == Initiator then Connect else SynAck(true) }

  function Scan(role: Role, trace: seq<Frame>): Progress {
    if trace == [] then Start else Advance(role, Scan(role, trace[..|trace| - 1]), trace[|trace| - 1])
  }

  predicate Announced(p: Progress) { p.HalfFin? || p.FullFin? }

  predicate Pristine(role: Role, e: End) {
    && !e.bound && e.boot == NoBoot && !e.conn && !e.ready && !e.localFin && !e.remoteFin && e.timer == Off
    && e.reader == NoReader && e.writer == NoWriter && e.inbox == [] && e.hand == None
    && e.tokens == 0 && e.sent == [] && e.written == [] && !e.gap && e.stuck == 0 && e.waste == 0
    && (e.trace == [] || (role == Responder && e.trace == [SynAck(false)]))
  }

  /** In the table, but SYN_ACK has not been sent (responder) or handled (initiator). */
  predicate Waiting(role: Role, e: End) {
    && (e.reader == NoReader || e.reader == AwaitReady) && e.writer == AwaitStart && e.timer == Off
    && !e.localFin && !e.remoteFin && e.tokens == 0 && e.sent == [] && e.written == [] && e.stuck == 0
    && (role == Initiator ==> e.trace == [] || e.trace == [Connect])
    && (role == Responder ==> e.trace == [] || (e.boot == AtReady && e.trace == [SynAck(true)]))
  }

  predicate BootOrder(role: Role, e: End) {
    && (e.phase == Absent <==> e.boot == NoBoot)
    && (role == Initiator ==> e.boot == NoBoot || e.boot == AtConnect || e.boot == Booted)
    && (role == Responder ==> e.boot != AtConnect)
    && (e.boot == AtConnect ==> e.phase == Live && !e.bound && !e.ready && e.trace == [])
    && (e.phase == Live && e.ready ==> e.boot == Booted)
    && (e.phase == Live && e.boot != AtDial ==> e.conn)
    && (e.phase == Live && role == Responder && e.boot == Booted ==> e.ready)
    && (e.boot != Booted ==> e.reader == NoReader)
    && (e.writer == NoWriter <==> e.phase == Absent)
    && (e.writer == WriterDone ==> Closing(e))
  }

  /** readLoop queues its end once. */
  predicate OneEof(inbox: seq<Item>) {
    forall i, j :: 0 <= i < j < |inbox| && inbox[i] == EofItem ==> inbox[j] != EofItem
  }

  predicate Shape(role: Role, e: End) {
    && (e.phase == Absent ==> Pristine(role, e))
    && (e.bound ==> e.phase == Live)
    && (e.phase == Live && !e.ready ==> Waiting(role, e))
    && BootOrder(role, e)
    && e.tokens <= e.window
    && (e.hand.Some? ==> e.hand.value != EofItem)
    && (e.reader.AtCredit? || e.reader.AtSend? ==> e.reader.payload != [])
    && (e.gap ==> e.done)
    && WrittenOff(e)
  }

  /** Own credits are written off only by a failed send, the peer's only by a failed ACK, a drop or a failed write. */
  predicate WrittenOff(e: End) {
    && (e.stuck > 0 ==> e.mute)
    && (e.phase == Live && !e.mute && !e.gap && !Stopped(e.writer) ==> e.waste == 0)
  }

  /** Once the local EOF is queued, handled or announced, readLoop has ended. */
  predicate EofLast(role: Role, e: End) {
    && (|| EofItem in e.inbox || e.writer == AtLocalEof || e.writer == AtSendFin
        || e.writer == AtRemove(FinFrame(FromEOF)) || Scan(role, e.trace) == HalfFin(FromEOF)
        ==> e.reader == ReaderDone)
    && OneEof(e.inbox)
    && (e.reader == ReaderDone && !Closing(e) && e.phase == Live ==>
       EofItem in e.inbox || e.writer == AtLocalEof || e.localFin)
  }

  /** The two FIN flags, the half-close timer and who is about to remove the stream. */
  predicate FinState(e: End) {
    && (e.writer == AtSendFin ==> e.localFin && (e.phase == Live ==> !e.remoteFin))
    && (e.writer == AtArm ==> (e.localFin || e.remoteFin) && (e.phase == Live ==> !(e.localFin && e.remoteFin)))
    && (e.writer == AtSendFin || e.writer == AtArm ==> e.timer == Off)
    && (e.timer != Off ==> e.localFin || e.remoteFin)
    && (e.timer.Firing? || e.timer.Fired? ==> e.localFin)
    && (e.timer.Firing? ==> e.timer.final == NoFrame || e.timer.final == FinFrame(FromTimer))
    && (e.timer.Fired? ==> e.phase == Gone)
    && (e.writer.AtRemove? ==>
          || e.writer.final == FinFrame(FromWriteFailure)
          || (e.localFin && e.remoteFin && (e.writer.final == NoFrame || e.writer.final == FinFrame(FromEOF))))
    && (e.phase == Live && e.localFin && e.remoteFin ==> e.writer.AtRemove? || e.timer.Firing?)
    && (e.phase == Live && (e.localFin || e.remoteFin) ==>
          e.timer != Off || e.writer.AtSendFin? || e.writer.AtArm? || e.writer.AtRemove?)
    && (e.phase == Live && e.localFin && e.reader != ReaderDone ==> e.remoteFin)
    && (e.phase == Gone ==> e.localFin && e.remoteFin && e.ready)
  }

  /** What the pool has routed so far, and what it can still route. */
  predicate TraceState(role: Role, e: End) {
    var p := Scan(role, e.trace);
    && p != Bad
    && (e.bound && role == Initiator ==> p.Open? || p.HalfFin?)
    && (e.bound && (e.boot == AtDial || e.boot == AtSynAck) ==> e.trace == [])
    && (e.bound && (e.boot == AtReady || e.boot == Booted) ==> p.Open? || p.HalfFin?)
    && (e.phase == Live && Announced(p) ==>
          && p == HalfFin(FromEOF) && e.localFin && e.writer != AtSendFin
          && e.writer != AtRemove(FinFrame(FromEOF)) && !(e.timer.Firing? && e.timer.final.FinFrame?))
    && (e.phase == Live && e.bound && e.localFin && !Announced(p) ==> Telling(e))
  }

  /**
   Who is about to tell the peer that a closed local direction has ended: writeLoop with its
   FIN; or writeLoop with the removal, unless the timer removes the stream first without a
   word; or the timer.
   */
  predicate Telling(e: End) {
    || e.writer == AtSendFin
    || (e.writer == AtRemove(FinFrame(FromEOF)) && (e.timer.Firing? ==> e.timer.final == NoFrame))
    || (e.timer == Firing(FinFrame(FromTimer)) && e.remoteFin
        && (e.writer.AtRemove? ==> e.writer.final == FinFrame(FromWriteFailure)))
  }

  predicate LocalInv(role: Role, e: End) {
    Shape(role, e) && EofLast(role, e) && FinState(e) && TraceState(role, e)
  }

  // --- the endpoint as source and as sink of its two directions

  function FinsOf(p: Progress): nat { if p.FullFin? then 2 else if p.HalfFin? then 1 else 0 }

  function SourceOf(role: Role, e: End): Source {
    Source(e.window, e.phase, e.sent, FinsOf(Scan(role, e.trace)), e.reader == ReaderDone,
           e.tokens, e.window > 0 && e.reader.AtSend?, e.stuck, e.mute)
  }

  function AtWriter(w: Writer): seq<Item> {
    match w
    case AtWrite(p) => [DataItem(p)]
    case AtRemoteFin(o) => [FinItem(o)]
    case _ => []
  }

  function Work(items: seq<Item>): seq<Item> {
    if items == [] then [] else (if items[0] == EofItem then [] else [items[0]]) + Work(items[1..])
  }

  function InHand(o: Option<Item>): seq<Item> { if o.Some? then [o.value] else [] }

  function HeldBy(w: Writer, inbox: seq<Item>, hand: Option<Item>): seq<Item> {
    AtWriter(w) + Work(inbox) + InHand(hand)
  }

  function Held(e: End): seq<Item> { HeldBy(e.writer, e.inbox, e.hand) }

  predicate Stopped(w: Writer) { w == WriterDone || w == AtRemove(FinFrame(FromWriteFailure)) }

  function SinkOf(e: End): Sink {
    Sink(e.cap, e.phase, Held(e), e.phase == Live && e.remoteFin, e.written, Stopped(e.writer), e.gap,
         e.writer == AtAck, e.waste, e.done)
  }

  function Carried(f: Frame): seq<Item> {
    match f
    case Data(p) => [DataItem(p)]
    case Fin(o) => [FinItem(o)]
    case _ => []
  }

  function Carries(frames: seq<Frame>): seq<Item> {
    if frames == [] then [] else Carried(frames[0]) + Carries(frames[1..])
  }

  function Acks(frames: seq<Frame>): nat {
    if frames == [] then 0 else Bit(frames[0].DataAck?) + Acks(frames[1..])
  }

  /** The frame a step takes off the channel, if any. */
  function Taken(a: Action): seq<Frame> { if a.Deliver? then [a.frame] else [] }

  /**
   The frames an endpoint can be sent: CONNECT only to an untouched responder, SYN_ACK only to
   an initiator that has sent CONNECT, DATA only to a stream that exists or has existed.
   */
  predicate Expected(role: Role, e: End, f: Frame) {
    && (f == Connect ==> role == Responder && e.trace == [])
    && (f.SynAck? ==> role == Initiator && e.boot == Booted)
    && (f.Data? ==> e.phase != Absent)
  }

  // --- every step keeps it

  lemma Routed(role: Role, trace: seq<Frame>, f: Frame)
    ensures Scan(role, trace + [f]) == Advance(role, Scan(role, trace), f)
    ensures Scan(role, []) == Start
  {
    assert (trace + [f])[..|trace|] == trace;
  }

  lemma AcceptKeeps(role: Role, a: Action, e: End)
    requires LocalInv(role, e) && Enabled(role, a, e)
    requires a.Accept?
    ensures LocalInv(role, Step(role, a, e).e)
  {
    hide Scan;
    Routed(role, [], Connect);
  }

  lemma DialKeeps(role: Role, a: Action, e: End)
    requires LocalInv(role, e) && Enabled(role, a, e)
    requires a.DialDone? || a.StartReader?
    ensures LocalInv(role, Step(role, a, e).e)
  {
    hide Scan, Advance;
    if a.StartReader? {} else if e.phase == Gone {} else {}
  }

  lemma SessionLossKeeps(role: Role, a: Action, e: End)
    requires LocalInv(role, e) && Enabled(role, a, e)
    requires a.SessionRemoved?
    ensures LocalInv(role, Step(role, a, e).e)
  {
    hide Scan, Advance;
  }

  lemma StopKeeps(role: Role, a: Action, e: End)
    requires LocalInv(role, e) && Enabled(role, a, e)
    requires a.StopSignal?
    ensures LocalInv(role, Step(role, a, e).e)
  {
    hide Scan, Advance;
  }

  lemma SendConnectKeeps(role: Role, a: Action, e: End)
    requires LocalInv(role, e) && Enabled(role, a, e)
    requires a.SendConnect?
    ensures LocalInv(role, Step(role, a, e).e)
  {
    hide Scan;
    Routed(role, e.trace, Connect);
    if !a.session {} else if a.res == Ok {} else {}
  }

  lemma DialFailedKeeps(role: Role, a: Action, e: End)
    requires LocalInv(role, e) && Enabled(role, a, e)
    requires a.DialFailed?
    ensures LocalInv(role, Step(role, a, e).e)
  {
    hide Scan;
    Routed(role, e.trace, SynAck(false));
  }

  lemma SendSynAckKeeps(role: Role, a: Action, e: End)
    requires LocalInv(role, e) && Enabled(role, a, e)
    requires a.SendSynAck?
    ensures LocalInv(role, Step(role, a, e).e)
  {
    hide Scan;
    Routed(role, e.trace, SynAck(true));
  }

  lemma EnqueueKeeps(role: Role, a: Action, e: End)
    requires LocalInv(role, e) && Enabled(role, a, e)
    requires a.Enqueue?
    ensures LocalInv(role, Step(role, a, e).e)
  {
    hide Scan, Advance;
  }

  lemma EnqueueEofKeeps(role: Role, a: Action, e: End)
    requires LocalInv(role, e) && Enabled(role, a, e)
    requires a.EnqueueEof?
    ensures LocalInv(role, Step(role, a, e).e)
  {
    hide Scan, Advance;
  }

  lemma TakeKeeps(role: Role, a: Action, e: End)
    requires LocalInv(role, e) && Enabled(role, a, e)
    requires a.Take?
    ensures LocalInv(role, Step(role, a, e).e)
  {
    hide Scan, Advance;
  }

  lemma DropKeeps(role: Role, a: Action, e: End)
    requires LocalInv(role, e) && Enabled(role, a, e)
    requires a.DropHand? || a.DropEof?
    ensures LocalInv(role, Step(role, a, e).e)
  {
    hide Scan, Advance;
  }

  lemma ReadyKeeps(role: Role, e: End)
    requires LocalInv(role, e) && Enabled(role, ReaderWake, e)
    ensures LocalInv(role, Step(role, ReaderWake, e).e)
  {
    hide Scan, Advance;
  }

  lemma BytesKeep(role: Role, data: Bytes, last: bool, e: End)
    requires LocalInv(role, e) && Enabled(role, ReadBytes(data, last), e)
    ensures LocalInv(role, Step(role, ReadBytes(data, last), e).e)
  {
    hide Scan, Advance;
  }

  lemma EndKeeps(role: Role, e: End)
    requires LocalInv(role, e) && Enabled(role, ReadEnd, e)
    ensures LocalInv(role, Step(role, ReadEnd, e).e)
  {
    hide Scan, Advance;
  }

  lemma CreditKeeps(role: Role, a: Action, e: End)
    requires LocalInv(role, e) && Enabled(role, a, e)
    requires a.Acquire? || a.AbortCredit?
    ensures LocalInv(role, Step(role, a, e).e)
  {
    hide Scan, Advance;
  }

  lemma WakeKeeps(role: Role, a: Action, e: End)
    requires LocalInv(role, e) && Enabled(role, a, e)
    requires a.WriterStart? || a.WriterExit?
    ensures LocalInv(role, Step(role, a, e).e)
  {
    hide Scan, Advance;
  }

  lemma WriteKeeps(role: Role, a: Action, e: End)
    requires LocalInv(role, e) && Enabled(role, a, e)
    requires a.WriteOk? || a.WriteFail?
    ensures LocalInv(role, Step(role, a, e).e)
  {
    hide Scan, Advance;
    if a.WriteOk? {} else {}
  }

  lemma LocalEofKeeps(role: Role, a: Action, e: End)
    requires LocalInv(role, e) && Enabled(role, a, e)
    requires a.LocalEof?
    ensures LocalInv(role, Step(role, a, e).e)
  {
    hide Scan, Advance;
    if e.localFin {} else if e.remoteFin {} else {}
  }

  lemma RemoteFinKeeps(role: Role, a: Action, e: End)
    requires LocalInv(role, e) && Enabled(role, a, e)
    requires a.RemoteFin?
    ensures LocalInv(role, Step(role, a, e).e)
  {
    hide Scan, Advance;
    if e.remoteFin {} else if e.localFin {} else {}
  }

  lemma ArmKeeps(role: Role, a: Action, e: End)
    requires LocalInv(role, e) && Enabled(role, a, e)
    requires a.Arm? || a.TimerFire?
    ensures LocalInv(role, Step(role, a, e).e)
  {
    hide Scan, Advance;
  }

  lemma SendDataKeeps(role: Role, a: Action, e: End)
    requires LocalInv(role, e) && Enabled(role, a, e)
    requires a.SendData? && Sends(e, a.res)
    ensures LocalInv(role, Step(role, a, e).e)
  {
    hide Scan;
    Routed(role, e.trace, Data(e.reader.payload));
  }

  lemma LoseDataKeeps(role: Role, a: Action, e: End)
    requires LocalInv(role, e) && Enabled(role, a, e)
    requires a.SendData? && !Sends(e, a.res)
    ensures LocalInv(role, Step(role, a, e).e)
  {
    hide Scan;
    Routed(role, e.trace, Data(e.reader.payload));
  }

  lemma SendAckKeeps(role: Role, a: Action, e: End)
    requires LocalInv(role, e) && Enabled(role, a, e)
    requires a.SendAck?
    ensures LocalInv(role, Step(role, a, e).e)
  {
    hide Scan;
    Routed(role, e.trace, DataAck);
    if e.bound {} else {}
  }

  lemma SendFinKeeps(role: Role, a: Action, e: End)
    requires LocalInv(role, e) && Enabled(role, a, e)
    requires a.SendFin?
    ensures LocalInv(role, Step(role, a, e).e)
  {
    hide Scan;
    Routed(role, e.trace, Fin(FromEOF));
  }

  lemma RemoveShape(role: Role, e: End, final: Final, res: Result)
    requires Shape(role, e) && FinState(e) && e.phase == Live && e.boot != AtConnect
             && (final.FinFrame? ==> e.boot == Booted)
    ensures var e2 := Remove(e, final, res).e; Shape(role, e2) && FinState(e2)
  {
    hide Scan, Advance;
  }

  /** A FIN for the end of the data comes after readLoop; behind an earlier FIN only a write failure sends one. */
  predicate FinIsDue(role: Role, e: End, origin: Origin) {
    && (origin == FromEOF ==> e.reader == ReaderDone)
    && (Announced(Scan(role, e.trace)) ==> origin == FromWriteFailure)
  }

  lemma RemoveTrace(role: Role, e: End, final: Final, res: Result)
    requires LocalInv(role, e) && e.phase == Live && e.boot == Booted && final.FinFrame?
    requires FinIsDue(role, e, final.origin)
    ensures var e2 := Remove(e, final, res).e; EofLast(role, e2) && TraceState(role, e2)
  {
    hide Scan, Pristine, Waiting, FinState;
    Routed(role, e.trace, Fin(final.origin));
  }

  /** removeStream with no last frame, or with a FIN. */
  lemma RemoveKeeps(role: Role, e: End, final: Final, res: Result)
    requires LocalInv(role, e) && e.phase == Live && e.boot != AtConnect
    requires final == NoFrame || (final.FinFrame? && e.boot == Booted && FinIsDue(role, e, final.origin))
    ensures LocalInv(role, Remove(e, final, res).e)
  {
    hide Scan, Advance, Shape, FinState;
    RemoveShape(role, e, final, res);
    if final.FinFrame? { RemoveTrace(role, e, final, res); }
  }

  lemma GoneKeeps(role: Role, e: End)
    requires LocalInv(role, e) && e.phase == Gone
    ensures e.timer != Off ==> LocalInv(role, e.(timer := Fired))
    ensures LocalInv(role, e.(writer := WriterDone))
  {
    hide Scan, Advance;
  }

  lemma TimerRemoveKeeps(role: Role, a: Action, e: End)
    requires LocalInv(role, e) && Enabled(role, a, e) && a.TimerRemove?
    ensures LocalInv(role, Step(role, a, e).e)
  {
    assert e.phase != Absent && (e.phase == Live ==> e.boot == Booted);
    if e.phase == Live { RemoveKeeps(role, e, e.timer.final, a.res); }
    GoneKeeps(role, Remove(e, e.timer.final, a.res).e);
    hide *;
  }

  lemma WriterRemoveKeeps(role: Role, a: Action, e: End)
    requires LocalInv(role, e) && Enabled(role, a, e) && a.WriterRemove?
    ensures LocalInv(role, Step(role, a, e).e)
  {
    assert e.phase != Absent && (e.phase == Live ==> e.boot == Booted);
    if e.phase == Live { RemoveKeeps(role, e, e.writer.final, a.res); }
    GoneKeeps(role, Remove(e, e.writer.final, a.res).e);
    hide *;
  }

  lemma CloseKeeps(role: Role, a: Action, e: End)
    requires LocalInv(role, e) && Enabled(role, a, e)
    requires a.CloseStream?
    ensures LocalInv(role, Step(role, a, e).e)
  {
    if e.phase == Live { RemoveKeeps(role, e, NoFrame, Ok); }
    hide Scan, Advance, Remove;
  }

  lemma DeliverConnectKeeps(role: Role, a: Action, e: End)
    requires LocalInv(role, e) && Enabled(role, a, e)
    requires a.Deliver? && a.frame == Connect && role == Responder && e.trace == []
    ensures LocalInv(role, Step(role, a, e).e)
  {
    hide Scan;
    Routed(role, e.trace, SynAck(false));
  }

  lemma DeliverSynAckKeeps(role: Role, a: Action, e: End)
    requires LocalInv(role, e) && Enabled(role, a, e)
    requires a.Deliver? && a.frame.SynAck? && role == Initiator && e.boot == Booted
    ensures LocalInv(role, Step(role, a, e).e)
  {
    if e.phase == Live { RemoveKeeps(role, e, NoFrame, a.res); }
    hide Scan, Advance, Remove;
  }

  lemma DeliverAckKeeps(role: Role, a: Action, e: End)
    requires LocalInv(role, e) && Enabled(role, a, e)
    requires a.Deliver? && a.frame == DataAck
    ensures LocalInv(role, Step(role, a, e).e)
  {
    hide Scan, Advance;
  }

  lemma ItemKeeps(role: Role, e: End, i: Item)
    requires LocalInv(role, e) && i != EofItem
    ensures e.phase == Live ==> LocalInv(role, e.(hand := Some(i)))
    ensures e.phase == Gone ==> LocalInv(role, e.(waste := e.waste + 1))
  {
    hide Scan, Advance;
  }

  lemma DeliverItemKeeps(role: Role, a: Action, e: End)
    requires LocalInv(role, e) && Enabled(role, a, e)
    requires a.Deliver? && (a.frame.Data? || a.frame.Fin?) && Expected(role, e, a.frame)
    ensures LocalInv(role, Step(role, a, e).e)
  {
    ItemKeeps(role, e, Carried(a.frame)[0]);
    hide LocalInv;
  }


  /** Every step of an endpoint keeps the local invariant. */
  lemma StepKeeps(role: Role, a: Action, e: End)
    requires LocalInv(role, e) && Enabled(role, a, e) && (a.Deliver? ==> Expected(role, e, a.frame))
    ensures LocalInv(role, Step(role, a, e).e)
  {
    hide LocalInv, Step, Enabled, Scan;
    match a
    case Accept => AcceptKeeps(role, a, e);
    case SendConnect(_, _) => SendConnectKeeps(role, a, e);
    case DialFailed(_) => DialFailedKeeps(role, a, e);
    case DialDone => DialKeeps(role, a, e);
    case SendSynAck(_) => SendSynAckKeeps(role, a, e);
    case StartReader => DialKeeps(role, a, e);
    case Deliver(f, _, _, _) =>
      match f {
        case Connect => DeliverConnectKeeps(role, a, e);
        case SynAck(_) => DeliverSynAckKeeps(role, a, e);
        case DataAck => DeliverAckKeeps(role, a, e);
        case Data(_) => DeliverItemKeeps(role, a, e);
        case Fin(_) => DeliverItemKeeps(role, a, e);
      }
    case Enqueue => EnqueueKeeps(role, a, e);
    case DropHand => DropKeeps(role, a, e);
    case ReaderWake => ReadyKeeps(role, e);
    case ReadBytes(data, last) => BytesKeep(role, data, last, e);
    case ReadEnd => EndKeeps(role, e);
    case Acquire => CreditKeeps(role, a, e);
    case AbortCredit => CreditKeeps(role, a, e);
    case SendData(res) => if Sends(e, res) { SendDataKeeps(role, a, e); } else { LoseDataKeeps(role, a, e); }
    case EnqueueEof => EnqueueEofKeeps(role, a, e);
    case DropEof => DropKeeps(role, a, e);
    case WriterStart => WakeKeeps(role, a, e);
    case WriterExit => WakeKeeps(role, a, e);
    case Take => TakeKeeps(role, a, e);
    case WriteOk => WriteKeeps(role, a, e);
    case WriteFail(_) => WriteKeeps(role, a, e);
    case SendAck(_) => SendAckKeeps(role, a, e);
    case LocalEof => LocalEofKeeps(role, a, e);
    case SendFin(_) => SendFinKeeps(role, a, e);
    case Arm => ArmKeeps(role, a, e);
    case RemoteFin => RemoteFinKeeps(role, a, e);
    case WriterRemove(_) => WriterRemoveKeeps(role, a, e);
    case TimerFire => ArmKeeps(role, a, e);
    case TimerRemove(_) => TimerRemoveKeeps(role, a, e);
    case SessionRemoved => SessionLossKeeps(role, a, e);
    case CloseStream => CloseKeeps(role, a, e);
    case StopSignal => StopKeeps(role, a, e);
  }
}
