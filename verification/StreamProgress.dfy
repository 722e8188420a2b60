/**
 A reader blocked on the window. As long as the stream is open at both ends and the link is
 up, handling what is under way always makes progress, and making progress frees a credit.
 */
module StreamProgress {
  import opened Basics
  import opened Pipe
  import opened StreamEndpoint
  import opened StreamLocal
  import opened StreamSystem
  import opened StreamTheorems

  /** Handling what is under way: no read, no new frame but the answers, nothing fails. */
  predicate Drains(a: Action) {
    || a.Deliver? || a.Enqueue? || a.StartReader? || a.WriterStart? || a.Take? || a.WriteOk? || a == SendAck(Ok)
    || a.LocalEof? || a == SendFin(Ok) || a.Arm? || a.RemoteFin? || a == WriterRemove(Ok)
  }

  predicate DrainEvent(ev: Event) { ev != LinkDown && Drains(ev.act) }

  // --- how much handling is left

  function FrameWeight(f: Frame): nat {
    match f
    case Data(_) => 6
    case Fin(_) => 5
    case _ => 1
  }

  function WireWeight(frames: seq<Frame>): nat {
    if frames == [] then 0 else FrameWeight(frames[0]) + WireWeight(frames[1..])
  }

  function ItemWeight(i: Item): nat {
    match i
    case DataItem(_) => 4
    case FinItem(_) => 3
    case EofItem => 9
  }

  function QueueWeight(items: seq<Item>): nat {
    if items == [] then 0 else ItemWeight(items[0]) + QueueWeight(items[1..])
  }

  function WriterWeight(w: Writer): nat {
    match w
    case AwaitStart => 1
    case AtWrite(_) => 3
    case AtAck => 2
    case AtLocalEof => 8
    case AtSendFin => 7
    case AtArm => 1
    case AtRemoteFin(_) => 2
    case AtRemove(final) => if final == NoFrame then 1 else 6
    case _ => 0
  }

  function HandWeight(hand: Option<Item>): nat { if hand.Some? then 1 + ItemWeight(hand.value) else 0 }

  function Load(e: End): nat {
    WriterWeight(e.writer) + QueueWeight(e.inbox) + HandWeight(e.hand) + Bit(e.boot == AtReady)
  }

  function Measure(s: System): nat { Load(s.a) + Load(s.b) + WireWeight(s.ab) + WireWeight(s.ba) }

  lemma {:induction false} QueueConcat(x: seq<Item>, y: seq<Item>)
    ensures QueueWeight(x + y) == QueueWeight(x) + QueueWeight(y)
  {
    if x == [] {
      assert x + y == y;
    } else {
      QueueConcat(x[1..], y);
      assert (x + y)[1..] == x[1..] + y && (x + y)[0] == x[0];
    }
  }

  lemma {:induction false} WireConcat(x: seq<Frame>, y: seq<Frame>)
    ensures WireWeight(x + y) == WireWeight(x) + WireWeight(y)
  {
    if x == [] {
      assert x + y == y;
    } else {
      WireConcat(x[1..], y);
      assert (x + y)[1..] == x[1..] + y && (x + y)[0] == x[0];
    }
  }

  lemma OneWeighs(f: Frame, i: Item)
    ensures WireWeight([f]) == FrameWeight(f) && QueueWeight([i]) == ItemWeight(i)
    ensures WireWeight([]) == 0 && QueueWeight([]) == 0
  {
    assert [f][1..] == [] && [i][1..] == [];
  }

  // --- one step of one end

  /** Open, or just about to be marked ready, and undisturbed: what draining relies on. */
  predicate Healthy(e: End) {
    e.phase == Live && (e.ready || e.boot == AtReady) && e.bound && !e.done && e.conn && e.cap > 0
  }

  /** What draining leaves as it is. */
  predicate SameStanding(e: End, e2: End) {
    && e2.window == e.window && e2.cap == e.cap && e2.stuck == e.stuck && e2.waste == e.waste
    && (e.boot != AtReady ==> e2.reader == e.reader && e2.boot == e.boot)
    && (e2.phase == Live ==> Healthy(e2))
  }

  predicate Lighter(a: Action, e: End, o: Out) {
    Load(o.e) + WireWeight(o.frames) < Load(e) + WireWeight(Taken(a))
  }

  lemma ItemDrains(role: Role, a: Action, e: End)
    requires Healthy(e) && Enabled(role, a, e) && a.Deliver? && (a.frame.Data? || a.frame.Fin?)
    ensures SameStanding(e, Step(role, a, e).e) && Lighter(a, e, Step(role, a, e))
  {
    OneWeighs(a.frame, EofItem);
    hide QueueWeight, WireWeight;
  }

  lemma ReplyDrains(role: Role, a: Action, e: End)
    requires Healthy(e) && Enabled(role, a, e) && a.Deliver? && a.frame.SynAck?
    ensures SameStanding(e, Step(role, a, e).e) && Lighter(a, e, Step(role, a, e))
  {
    OneWeighs(a.frame, EofItem);
    hide QueueWeight, WireWeight;
  }

  lemma NoticeDrains(role: Role, a: Action, e: End)
    requires Healthy(e) && Enabled(role, a, e) && a.Deliver? && (a.frame == Connect || a.frame == DataAck)
    ensures SameStanding(e, Step(role, a, e).e) && Lighter(a, e, Step(role, a, e))
  {
    OneWeighs(a.frame, EofItem);
    hide QueueWeight, WireWeight;
  }

  lemma EnqueueDrains(role: Role, a: Action, e: End)
    requires Healthy(e) && Enabled(role, a, e) && a.Enqueue?
    ensures SameStanding(e, Step(role, a, e).e) && Lighter(a, e, Step(role, a, e))
  {
    QueueConcat(e.inbox, [e.hand.value]);
    OneWeighs(DataAck, e.hand.value);
    hide QueueWeight, WireWeight;
  }

  lemma TakeDrains(role: Role, a: Action, e: End)
    requires Healthy(e) && Enabled(role, a, e) && a.Take?
    ensures SameStanding(e, Step(role, a, e).e) && Lighter(a, e, Step(role, a, e))
  {
    assert QueueWeight(e.inbox) == ItemWeight(e.inbox[0]) + QueueWeight(e.inbox[1..]);
    hide QueueWeight, WireWeight;
    match e.inbox[0]
    case DataItem(_) =>
    case FinItem(_) =>
    case EofItem =>
  }

  lemma WriteDrains(role: Role, a: Action, e: End)
    requires Healthy(e) && Enabled(role, a, e) && (a.WriterStart? || a.WriteOk? || a.Arm?)
    ensures SameStanding(e, Step(role, a, e).e) && Lighter(a, e, Step(role, a, e))
  {
    hide QueueWeight, WireWeight;
  }

  lemma StartDrains(role: Role, a: Action, e: End)
    requires Healthy(e) && Enabled(role, a, e) && a.StartReader?
    ensures SameStanding(e, Step(role, a, e).e) && Lighter(a, e, Step(role, a, e))
  {
    hide QueueWeight, WireWeight;
  }

  lemma AckDrains(role: Role, a: Action, e: End)
    requires Healthy(e) && Enabled(role, a, e) && (a == SendAck(Ok) || a == SendFin(Ok))
    ensures SameStanding(e, Step(role, a, e).e) && Lighter(a, e, Step(role, a, e))
  {
    OneWeighs(DataAck, EofItem);
    OneWeighs(Fin(FromEOF), EofItem);
    hide QueueWeight, WireWeight;
  }

  lemma EndDrains(role: Role, a: Action, e: End)
    requires Healthy(e) && Enabled(role, a, e) && (a.LocalEof? || a.RemoteFin?)
    ensures SameStanding(e, Step(role, a, e).e) && Lighter(a, e, Step(role, a, e))
  {
    hide QueueWeight, WireWeight;
  }

  function LastFrame(final: Final): Frame { if final.FinFrame? then Fin(final.origin) else SynAck(false) }

  lemma RemoveLeaves(e: End, final: Final)
    requires e.phase == Live && e.bound
    ensures var o := Remove(e, final, Ok);
            && o.e.inbox == e.inbox && o.e.hand == e.hand && o.e.boot == e.boot
            && o.frames == if final == NoFrame then [] else [LastFrame(final)]
  {
    if final == NoFrame {} else {}
  }

  lemma RemoveIsLighter(role: Role, a: Action, e: End)
    requires Healthy(e) && Enabled(role, a, e) && a == WriterRemove(Ok)
    ensures Lighter(a, e, Step(role, a, e))
  {
    RemoveLeaves(e, e.writer.final);
    OneWeighs(LastFrame(e.writer.final), EofItem);
    hide QueueWeight, WireWeight, Remove;
  }

  lemma RemoveDrains(role: Role, a: Action, e: End)
    requires Healthy(e) && Enabled(role, a, e) && a == WriterRemove(Ok)
    ensures SameStanding(e, Step(role, a, e).e) && Lighter(a, e, Step(role, a, e))
  {
    hide QueueWeight, WireWeight, Lighter;
    RemoveIsLighter(role, a, e);
  }

  lemma StepDrains(role: Role, a: Action, e: End)
    requires Healthy(e) && Enabled(role, a, e) && Drains(a)
    ensures SameStanding(e, Step(role, a, e).e) && Lighter(a, e, Step(role, a, e))
  {
    hide Healthy, Enabled, Step, SameStanding, Lighter;
    match a
    case Deliver(f, _, _, _) =>
      if f.Data? || f.Fin? { ItemDrains(role, a, e); }
      else if f.SynAck? { ReplyDrains(role, a, e); }
      else { NoticeDrains(role, a, e); }
    case Enqueue => EnqueueDrains(role, a, e);
    case Take => TakeDrains(role, a, e);
    case StartReader => StartDrains(role, a, e);
    case SendAck(_) => AckDrains(role, a, e);
    case SendFin(_) => AckDrains(role, a, e);
    case LocalEof => EndDrains(role, a, e);
    case RemoteFin => EndDrains(role, a, e);
    case WriterRemove(_) => RemoveDrains(role, a, e);
    case _ => WriteDrains(role, a, e);
  }

  // --- one step of the system

  predicate Open(s: System) { s.up && Healthy(s.a) && Healthy(s.b) }

  /** Only the teardown itself ends a pending teardown. */
  predicate StillRemoving(e: End, e2: End) { e.writer.AtRemove? ==> e2.writer == e.writer || e2.phase != Live }

  lemma RemovalStays(role: Role, a: Action, e: End)
    requires Enabled(role, a, e) && Drains(a) && e.writer.AtRemove? && !a.Deliver?
    ensures StillRemoving(e, Step(role, a, e).e)
  {
    assert a.Enqueue? || a.StartReader? || a.WriterRemove?;
    hide Remove;
    if a.WriterRemove? {} else {}
  }

  lemma KeepsRemoving(role: Role, a: Action, e: End)
    requires Enabled(role, a, e) && Drains(a) && e.phase == Live
    ensures StillRemoving(e, Step(role, a, e).e)
  {
    hide Step, Enabled, Drains, Receive;
    if e.writer.AtRemove? {
      if a.Deliver? {
        assert Step(role, a, e) == Receive(e, a.frame, a.accept, a.bind, a.res) by { Delivers(role, a, e); }
      } else {
        RemovalStays(role, a, e);
      }
    }
  }

  lemma Delivers(role: Role, a: Action, e: End)
    requires Enabled(role, a, e) && a.Deliver?
    ensures Step(role, a, e) == Receive(e, a.frame, a.accept, a.bind, a.res)
  {
    hide Receive;
  }

  lemma WireShrinks(e: End, o: Out, a: Action, inn: seq<Frame>, out: seq<Frame>)
    requires Taken(a) <= inn && Lighter(a, e, o)
    ensures Load(o.e) + WireWeight(inn[|Taken(a)|..]) + WireWeight(out + o.frames)
            < Load(e) + WireWeight(inn) + WireWeight(out)
  {
    var rest := inn[|Taken(a)|..];
    assert inn == Taken(a) + rest;
    WireConcat(Taken(a), rest);
    WireConcat(out, o.frames);
    hide WireWeight, Load, Taken;
  }

  /** Every step of the draining leaves less to handle: the draining ends. */
  lemma DrainingEnds(s: System, ev: Event)
    requires Open(s) && CanStep(s, ev) && DrainEvent(ev)
    ensures Measure(Next(s, ev)) < Measure(s)
    ensures Next(s, ev).up && SameStanding(s.a, Next(s, ev).a) && SameStanding(s.b, Next(s, ev).b)
    ensures StillRemoving(s.a, Next(s, ev).a) && StillRemoving(s.b, Next(s, ev).b)
  {
    hide Step, Enabled, Drains, Lighter, Load, WireWeight;
    match ev
    case ByA(act) =>
      StepDrains(Initiator, act, s.a);
      KeepsRemoving(Initiator, act, s.a);
      WireShrinks(s.a, Step(Initiator, act, s.a), act, s.ba, s.ab);
    case ByB(act) =>
      StepDrains(Responder, act, s.b);
      KeepsRemoving(Responder, act, s.b);
      WireShrinks(s.b, Step(Responder, act, s.b), act, s.ab, s.ba);
    case LinkDown =>
  }

  // --- there is always a step

  predicate Idling(e: End, inn: seq<Frame>) { e.writer == Idle && e.inbox == [] && e.hand == None && inn == [] }

  predicate CanMove(role: Role, e: End, inn: seq<Frame>, a: Action) {
    Drains(a) && Enabled(role, a, e) && Taken(a) <= inn
  }

  lemma WriterMoves(role: Role, e: End, inn: seq<Frame>) returns (a: Action)
    requires Healthy(e) && e.writer != Idle && e.writer != WriterDone && e.writer != NoWriter
    ensures CanMove(role, e, inn, a)
  {
    a := match e.writer
      case AwaitStart => if e.ready then WriterStart else StartReader
      case AtWrite(_) => WriteOk
      case AtAck => SendAck(Ok)
      case AtLocalEof => LocalEof
      case AtSendFin => SendFin(Ok)
      case AtArm => Arm
      case AtRemoteFin(_) => RemoteFin
      case _ => WriterRemove(Ok);
  }

  lemma EndMoves(role: Role, e: End, inn: seq<Frame>) returns (a: Action)
    requires LocalInv(role, e) && Healthy(e) && !Idling(e, inn)
    ensures CanMove(role, e, inn, a)
  {
    assert e.writer != WriterDone && e.writer != NoWriter by { hide EofLast, FinState, TraceState, Pristine, Waiting; }
    hide LocalInv;
    if e.writer != Idle {
      a := WriterMoves(role, e, inn);
    } else if e.inbox != [] {
      a := Take;
    } else if e.hand.Some? {
      a := Enqueue;
    } else {
      a := Deliver(inn[0], true, true, Ok);
    }
  }

  /** readLoop waits for a credit of an open stream. */
  predicate AtFullWindow(s: System, side: Role) {
    var e := Mine(s, side);
    Open(s) && e.reader.AtCredit? && e.window > 0 && e.tokens == e.window
  }

  /** Not all the credits are written off, or one of the ends is about to be torn down anyway. */
  predicate Hopeful(s: System, side: Role) {
    || Mine(s, side).stuck + Peer(s, side).waste < Mine(s, side).window
    || s.a.writer.AtRemove? || s.b.writer.AtRemove?
  }

  predicate Blocked(s: System, side: Role) { AtFullWindow(s, side) && Hopeful(s, side) }

  lemma NothingUnderWay(e: End, peer: End, out: seq<Frame>, back: seq<Frame>)
    requires Idling(e, back) && Idling(peer, out)
    ensures CountData(Carries(out)) + CountData(Held(peer)) + Bit(peer.writer == AtAck) + Acks(back) == 0
  {
  }

  lemma SomethingUnderWay(s: System, side: Role)
    requires Inv(s) && Blocked(s, side)
    ensures !Idling(s.a, s.ba) || !Idling(s.b, s.ab)
  {
    assert Idling(s.a, s.ba) && Idling(s.b, s.ab) ==> !s.a.writer.AtRemove? && !s.b.writer.AtRemove?;
    hide LocalInv, Handshake, PipeInv, PipeOf, SourceOf, SinkOf, Held, Carries, Acks, CountData, Idling;
    if Idling(s.a, s.ba) && Idling(s.b, s.ab) {
      if side == Initiator {
        CreditOf(Initiator, s.a, s.b, s.ab, s.ba);
        NothingUnderWay(s.a, s.b, s.ab, s.ba);
      } else {
        CreditOf(Responder, s.b, s.a, s.ba, s.ab);
        NothingUnderWay(s.b, s.a, s.ba, s.ab);
      }
    }
  }

  /** A blocked reader never waits alone: something under way can be handled. */
  lemma AlwaysAStep(s: System, side: Role) returns (ev: Event)
    requires Inv(s) && Blocked(s, side)
    ensures DrainEvent(ev) && CanStep(s, ev)
  {
    hide Inv, LocalInv, Idling, Enabled, Drains, Healthy, Hopeful;
    SomethingUnderWay(s, side);
    BothLocal(s);
    if !Idling(s.a, s.ba) {
      var act := EndMoves(Initiator, s.a, s.ba);
      ev := ByA(act);
    } else {
      var act := EndMoves(Responder, s.b, s.ab);
      ev := ByB(act);
    }
  }

  /** A credit is back, or one of the two ends has been torn down. */
  predicate Freed(s: System, side: Role) {
    s.a.phase != Live || s.b.phase != Live || Mine(s, side).tokens < Mine(s, side).window
  }

  lemma StillBlocked(s: System, s2: System, side: Role)
    requires Blocked(s, side) && Inv(s) && Inv(s2) && s2.up && SameStanding(s.a, s2.a) && SameStanding(s.b, s2.b)
             && !Freed(s2, side)
    requires StillRemoving(s.a, s2.a) && StillRemoving(s.b, s2.b)
    ensures Blocked(s2, side)
  {
    hide Inv, LocalInv;
    BothLocal(s);
    BothLocal(s2);
    BlockedIsBooted(side, Mine(s, side));
    TokensFit(side, Mine(s2, side));
  }

  lemma BlockedIsBooted(role: Role, e: End)
    requires LocalInv(role, e)
    ensures e.reader.AtCredit? ==> e.boot == Booted
  {
    hide EofLast, FinState, TraceState, Pristine, Waiting;
  }

  lemma TokensFit(role: Role, e: End)
    requires LocalInv(role, e)
    ensures e.tokens <= e.window
  {
    hide EofLast, FinState, TraceState, Pristine, Waiting, BootOrder;
  }

  predicate AllDrain(evs: seq<Event>) { forall i :: 0 <= i < |evs| ==> DrainEvent(evs[i]) }

  /** Handling what is under way, in any order, frees a blocked reader: there is no other way to go on for ever. */
  lemma {:induction false} DrainingFrees(s: System, side: Role, evs: seq<Event>)
    requires Inv(s) && Blocked(s, side) && AllDrain(evs) && Run(s, evs).Some?
    requires |evs| >= Measure(s)
    ensures exists n :: 0 < n <= |evs| && Run(s, evs[..n]).Some? && Freed(Run(s, evs[..n]).value, side)
    decreases |evs|
  {
    hide Inv, Blocked, CanStep, Next, Freed, Measure, DrainEvent;
    if evs == [] {
      var ev := AlwaysAStep(s, side);
      Shrinks(s, side, ev);
      assert false;
    }
    var ev := evs[0];
    NextInv(s, ev);
    Shrinks(s, side, ev);
    var s2 := Next(s, ev);
    assert evs[..1] == [ev] && [ev][1..] == [];
    assert Run(s2, []) == Some(s2);
    assert Run(s, evs[..1]) == Some(s2);
    if !Freed(s2, side) {
      DrainingFrees(s2, side, evs[1..]);
      var n :| 0 < n <= |evs[1..]| && Run(s2, evs[1..][..n]).Some? && Freed(Run(s2, evs[1..][..n]).value, side);
      assert evs[..n + 1][1..] == evs[1..][..n] && evs[..n + 1][0] == ev;
      assert Run(s, evs[..n + 1]) == Run(s2, evs[1..][..n]);
    }
  }

  lemma Shrinks(s: System, side: Role, ev: Event)
    requires Inv(s) && Blocked(s, side) && CanStep(s, ev) && DrainEvent(ev)
    ensures Measure(Next(s, ev)) < Measure(s)
    ensures !Freed(Next(s, ev), side) ==> Blocked(Next(s, ev), side)
  {
    assert Open(s);
    hide Inv, Blocked, CanStep, Next, Freed, Measure, DrainEvent, Open, SameStanding, StillRemoving;
    DrainingEnds(s, ev);
    NextInv(s, ev);
    if !Freed(Next(s, ev), side) { StillBlocked(s, Next(s, ev), side); }
  }

  /** So a blocked reader can always get its credit, or sees its stream end. */
  lemma {:induction false} BlockedReaderGoesOn(s: System, side: Role) returns (evs: seq<Event>)
    requires Inv(s) && Blocked(s, side)
    ensures AllDrain(evs) && Run(s, evs).Some? && Freed(Run(s, evs).value, side)
    decreases Measure(s)
  {
    hide Inv, Blocked, CanStep, Next, Freed, Measure, DrainEvent;
    var ev := AlwaysAStep(s, side);
    Shrinks(s, side, ev);
    NextInv(s, ev);
    var s2 := Next(s, ev);
    if Freed(s2, side) {
      evs := [ev];
      assert evs[1..] == [];
      assert Run(s2, []) == Some(s2);
    } else {
      var rest := BlockedReaderGoesOn(s2, side);
      evs := [ev] + rest;
      assert evs[1..] == rest;
    }
  }

  /** In every state two tunnels can reach. */
  lemma BlockedReaderUnblocks(s: System, side: Role)
    requires Reachable(s) && Blocked(s, side)
    ensures exists evs: seq<Event> :: AllDrain(evs) && Run(s, evs).Some? && Freed(Run(s, evs).value, side)
  {
    ReachableInv(s);
    hide Inv, Blocked, Run, Freed, AllDrain, Reachable;
    var evs := BlockedReaderGoesOn(s, side);
  }
}
