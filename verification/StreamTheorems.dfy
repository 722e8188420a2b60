/** What two tunnels promise about one stream, in every state they can reach. */
module StreamTheorems {
  import opened Pipe
  import opened StreamEndpoint
  import opened StreamLocal
  import opened StreamSystem
  import opened StreamReads

  lemma WrittenIsPrefix(p: Pipe)
    requires PipeInv(p)
    ensures !p.snk.gap ==> p.snk.written <= p.src.sent
  {
    hide Ordered, Sized, Heard, Balance;
  }

  /**
   What one side's connection was given is a prefix of what the other side's transport took, and
   that is a prefix of what the other side's connection delivered.
   */
  lemma WrittenIsPrefixOfRead(s: System)
    requires Reachable(s)
    ensures !s.b.gap ==> s.b.written <= s.a.sent
    ensures !s.a.gap ==> s.a.written <= s.b.sent
    ensures s.a.sent <= s.a.read && s.b.sent <= s.b.read
  {
    ReachableReads(s, Initiator);
    ReachableReads(s, Responder);
    hide Reachable, Run, Inv, PipeInv, Forward, Backward, ReadState;
    SentFirst(s.a);
    SentFirst(s.b);
    ReachableInv(s);
    BothPipes(s);
    WrittenIsPrefix(Forward(s));
    WrittenIsPrefix(Backward(s));
  }

  /**
   Nothing is lost or duplicated while a stream is open: the rest of what was sent is on its way,
   in order, and behind it, as long as readLoop runs, what it has read and still holds.
   */
  lemma NothingIsLost(s: System)
    requires Reachable(s) && s.up
    ensures s.b.phase == Live && !s.b.gap && !Stopped(s.b.writer) ==>
              var way := s.b.written + Payload(Held(s.b)) + Payload(Carries(s.ab));
              way == s.a.sent && (!Spent(s.a.reader) ==> way + Unsent(s.a.reader) == s.a.read)
    ensures s.a.phase == Live && !s.a.gap && !Stopped(s.a.writer) ==>
              var way := s.a.written + Payload(Held(s.a)) + Payload(Carries(s.ba));
              way == s.b.sent && (!Spent(s.b.reader) ==> way + Unsent(s.b.reader) == s.b.read)
  {
    ReachableInv(s);
    ReachableReads(s, Initiator);
    ReachableReads(s, Responder);
    hide Run, LocalInv, Handshake, Scan, Held, Payload, Carries;
  }

  /**
   The FIN that announces the end of the peer's data finds the peer's reader ended, and all of
   its data written exactly when this side has dropped none: always, if it is not stopping.
   */
  lemma HalfCloseIsComplete(s: System, side: Role)
    requires Reachable(s) && Mine(s, side).writer == AtRemoteFin(FromEOF)
    ensures Peer(s, side).reader == ReaderDone
    ensures Mine(s, side).written == Peer(s, side).sent <==> !Mine(s, side).gap
    ensures !Mine(s, side).done ==> Mine(s, side).written == Peer(s, side).sent
  {
    hide Reachable, Run, Inv, PipeInv, Forward, Backward, LocalInv;
    ReachableInv(s);
    BothLocal(s);
    BothPipes(s);
    GapNeedsStop(side, Mine(s, side));
    if side == Initiator {
      FinIsLast(Backward(s), s.a, Responder, s.b);
    } else {
      FinIsLast(Forward(s), s.b, Initiator, s.a);
    }
  }

  /** A gap is never filled again. */
  lemma GapIsShort(p: Pipe)
    requires PipeInv(p) && p.snk.gap
    ensures |p.snk.written| < |p.src.sent|
  {
    hide Ordered, Faithful, Heard, Balance;
  }

  /**
   Measured by what was read: the peer's connection has been written out when its announced end is
   handled, if and only if this side has dropped no DATA and the peer's readLoop has given none up.
   */
  lemma CleanEndIsComplete(windowA: nat, capA: nat, windowB: nat, capB: nat, evs: seq<Event>, side: Role)
    requires Run(Initial(windowA, capA, windowB, capB), evs).Some?
    requires Mine(Run(Initial(windowA, capA, windowB, capB), evs).value, side).writer == AtRemoteFin(FromEOF)
    ensures var s := Initial(windowA, capA, windowB, capB); var e := Mine(Run(s, evs).value, side);
            var other := if side == Initiator then Responder else Initiator;
            e.written == ReadBy(other, evs) <==> !e.gap && !GaveUp(other, s, evs)
  {
    var s := Initial(windowA, capA, windowB, capB);
    var t := Run(s, evs).value;
    var other := if side == Initiator then Responder else Initiator;
    assert Reachable(t);
    hide Reachable, Run, Inv, PipeInv, Forward, Backward, LocalInv, ReadBy, GaveUp, Initial;
    SentIsPrefixOfRead(other, windowA, capA, windowB, capB, evs);
    HalfCloseIsComplete(t, side);
    ReachableInv(t);
    BothPipes(t);
    assert Mine(t, other) == Peer(t, side);
    assert Peer(t, side).sent + [] == Peer(t, side).sent;
    if Mine(t, side).gap { GapIsShort(if side == Initiator then Backward(t) else Forward(t)); }
  }

  lemma BothPipes(s: System)
    requires Inv(s)
    ensures PipeInv(Forward(s)) && PipeInv(Backward(s))
    ensures Forward(s).snk == SinkOf(s.b) && Forward(s).src == SourceOf(Initiator, s.a)
    ensures Backward(s).snk == SinkOf(s.a) && Backward(s).src == SourceOf(Responder, s.b)
  {
    hide LocalInv, PipeInv, Handshake, SourceOf, SinkOf;
  }

  lemma GapNeedsStop(role: Role, e: End)
    requires LocalInv(role, e)
    ensures e.gap ==> e.done
  {
    hide EofLast, FinState, TraceState, BootOrder, Pristine, Waiting;
  }

  /** Behind a FIN at the head of what the writer holds there is nothing left to write. */
  lemma NothingBehindFin(p: Pipe, rest: seq<Item>)
    requires Ordered(p) && p.snk.held == [FinItem(FromEOF)] + rest
    ensures Payload(p.snk.held) == [] && Payload(p.wire) == []
  {
    hide Payload, CountData, CountFins, HasFin, FinLast;
    assert [] + [FinItem(FromEOF)] + (rest + p.wire) == p.snk.held + p.wire;
    BehindFin([], FinItem(FromEOF), rest + p.wire);
    PayloadConcat(rest, p.wire);
    PayloadConcat([FinItem(FromEOF)], rest);
    Single(FinItem(FromEOF));
  }

  lemma FinAtHead(p: Pipe, rest: seq<Item>)
    requires PipeInv(p) && p.snk.held == [FinItem(FromEOF)] + rest && !p.snk.stopped
    ensures p.snk.written == p.src.sent <==> !p.snk.gap
    ensures p.src.finished
  {
    assert p.snk.held[0] == FinItem(FromEOF);
    assert (p.snk.held + p.wire)[0] == FinItem(FromEOF);
    hide Balance, Heard, Payload, CountData, CountFins, HasFin, FinLast;
    NothingBehindFin(p, rest);
    assert p.snk.written + [] == p.snk.written;
  }

  lemma FinIsLast(p: Pipe, e: End, role: Role, peer: End)
    requires PipeInv(p) && p.snk == SinkOf(e) && p.src == SourceOf(role, peer) && e.writer == AtRemoteFin(FromEOF)
    ensures e.written == peer.sent <==> !e.gap
    ensures peer.reader == ReaderDone
  {
    hide PipeInv, Work, Scan;
    var rest := Work(e.inbox) + InHand(e.hand);
    assert p.snk.held == [FinItem(FromEOF)] + rest;
    FinAtHead(p, rest);
  }

  // --- credit

  predicate Credit(e: End, peer: End, out: seq<Frame>, back: seq<Frame>) {
    e.tokens == CountData(Carries(out)) + CountData(Held(peer)) + Bit(peer.writer == AtAck) + Acks(back)
                + Bit(e.reader.AtSend?) + e.stuck + peer.waste
  }

  lemma CreditOf(role: Role, e: End, peer: End, out: seq<Frame>, back: seq<Frame>)
    requires PipeInv(PipeOf(SourceOf(role, e), SinkOf(peer), out, back, true))
    requires e.window > 0 && e.phase == Live
    ensures Credit(e, peer, out, back)
  {
    hide Ordered, Clean, Faithful, Scan, Held, CountData, Carries, Acks;
  }

  /**
   Tokens are DATA on the way, held by the peer or being acknowledged, ACKs on the way back, and
   those written off.
   */
  lemma CreditIsConserved(s: System)
    requires Reachable(s) && s.up
    ensures s.a.window > 0 && s.a.phase == Live ==> Credit(s.a, s.b, s.ab, s.ba)
    ensures s.b.window > 0 && s.b.phase == Live ==> Credit(s.b, s.a, s.ba, s.ab)
  {
    ReachableInv(s);
    hide Reachable, LocalInv, Handshake, PipeInv, PipeOf, SourceOf, SinkOf, Credit;
    if s.a.window > 0 && s.a.phase == Live { CreditOf(Initiator, s.a, s.b, s.ab, s.ba); }
    if s.b.window > 0 && s.b.phase == Live { CreditOf(Responder, s.b, s.a, s.ba, s.ab); }
  }

  /** Without a failed send, a failed write or a drop, nothing is written off. */
  predicate Undisturbed(e: End, peer: End) {
    !e.mute && !peer.mute && !peer.gap && !Stopped(peer.writer)
  }

  lemma NothingWrittenOff(role: Role, peerRole: Role, e: End, peer: End)
    requires LocalInv(role, e) && LocalInv(peerRole, peer) && peer.phase == Live && Undisturbed(e, peer)
    ensures e.stuck == 0 && peer.waste == 0
  {
    hide EofLast, FinState, TraceState, Pristine, Waiting, BootOrder;
  }

  predicate ExactCredit(e: End, peer: End, out: seq<Frame>, back: seq<Frame>) {
    e.tokens == CountData(Carries(out)) + CountData(Held(peer)) + Bit(peer.writer == AtAck) + Acks(back)
                + Bit(e.reader.AtSend?)
  }

  lemma ExactFrom(role: Role, peerRole: Role, e: End, peer: End, out: seq<Frame>, back: seq<Frame>)
    requires LocalInv(role, e) && LocalInv(peerRole, peer) && peer.phase == Live && Undisturbed(e, peer)
    requires Credit(e, peer, out, back)
    ensures ExactCredit(e, peer, out, back)
  {
    hide LocalInv, Undisturbed, CountData, Held, Carries, Acks;
    NothingWrittenOff(role, peerRole, e, peer);
  }

  /**
   While both ends are open and nothing has failed, every token is a DATA or an ACK under way, or
   the DATA about to be sent.
   */
  lemma CreditIsExact(s: System)
    requires Reachable(s) && s.up && s.a.phase == Live && s.b.phase == Live
    ensures s.a.window > 0 && Undisturbed(s.a, s.b) ==> ExactCredit(s.a, s.b, s.ab, s.ba)
    ensures s.b.window > 0 && Undisturbed(s.b, s.a) ==> ExactCredit(s.b, s.a, s.ba, s.ab)
  {
    hide Reachable, LocalInv, Handshake, Forward, Backward, Undisturbed, Credit, ExactCredit;
    ReachableInv(s);
    CreditIsConserved(s);
    if s.a.window > 0 && Undisturbed(s.a, s.b) { ExactFrom(Initiator, Responder, s.a, s.b, s.ab, s.ba); }
    if s.b.window > 0 && Undisturbed(s.b, s.a) { ExactFrom(Responder, Initiator, s.b, s.a, s.ba, s.ab); }
  }

  /** Never more DATA outstanding than the window. */
  lemma WindowIsRespected(s: System)
    requires Reachable(s) && s.up
    ensures s.a.window > 0 && s.a.phase == Live ==>
              CountData(Carries(s.ab)) + CountData(Held(s.b)) + Bit(s.b.writer == AtAck) + Acks(s.ba) <= s.a.window
    ensures s.b.window > 0 && s.b.phase == Live ==>
              CountData(Carries(s.ba)) + CountData(Held(s.a)) + Bit(s.a.writer == AtAck) + Acks(s.ab) <= s.b.window
  {
    ReachableInv(s);
    hide Run, LocalInv, Handshake, Scan, Held, CountData, Carries, Acks;
  }

  /** onACK never finds the semaphore empty. */
  lemma AckFindsToken(s: System)
    requires Reachable(s)
    ensures s.ba != [] && s.ba[0] == DataAck && s.a.phase == Live && s.a.window > 0 ==> s.a.tokens > 0
    ensures s.ab != [] && s.ab[0] == DataAck && s.b.phase == Live && s.b.window > 0 ==> s.b.tokens > 0
  {
    ReachableInv(s);
    assert s.ba != [] && s.ba[0] == DataAck ==> Acks(s.ba) > 0 && s.up;
    assert s.ab != [] && s.ab[0] == DataAck ==> Acks(s.ab) > 0 && s.up;
    hide Run, LocalInv, Handshake, Scan, Held, CountData, Carries, Acks;
  }

  // --- what the transport's goroutine can wait for

  lemma {:induction false} WorkCounts(items: seq<Item>)
    requires OneEof(items) && !HasFin(Work(items))
    ensures CountData(Work(items)) == |Work(items)|
    ensures |items| <= |Work(items)| + Bit(EofItem in items)
  {
    if items != [] {
      var rest := items[1..];
      assert items == [items[0]] + rest;
      assert forall i :: 0 <= i < |rest| ==> rest[i] == items[i + 1];
      var first: seq<Item> := if items[0] == EofItem then [] else [items[0]];
      assert Work(items) == first + Work(rest);
      assert HasFin(Work(rest)) ==> HasFin(first + Work(rest)) by {
        assert forall i :: 0 <= i < |Work(rest)| ==> (first + Work(rest))[|first| + i] == Work(rest)[i];
      }
      assert first != [] ==> (first + Work(rest))[0] == items[0];
      WorkCounts(rest);
      PayloadConcat(first, Work(rest));
      Single(items[0]);
    }
  }

  lemma NoFinBefore(a: seq<Item>, w: seq<Item>, x: Item, b: seq<Item>)
    requires FinLast((a + w + [x]) + b) && x.DataItem?
    ensures !HasFin(w)
  {
    var all := (a + w + [x]) + b;
    assert all[|a| + |w|] == x;
    assert forall i :: 0 <= i < |w| ==> all[|a| + i] == w[i];
  }

  lemma FullInbox(e: End, window: nat, wire: seq<Item>)
    requires OneEof(e.inbox) && FinLast(Held(e) + wire) && CountData(Held(e)) + Bit(e.writer == AtAck) <= window
    requires window <= e.cap <= |e.inbox| && e.hand.Some? && e.hand.value != EofItem
    ensures e.hand.value.DataItem? ==> EofItem in e.inbox && !e.writer.AtWrite? && e.writer != AtAck
    ensures e.hand.value.FinItem? && (e.writer.AtWrite? || e.writer == AtAck) ==>
            EofItem in e.inbox || HasFin(Work(e.inbox))
  {
    hide CountData, Work, FinLast, HasFin, OneEof;
    var w, hand := Work(e.inbox), [e.hand.value];
    PayloadConcat(AtWriter(e.writer) + w, hand);
    PayloadConcat(AtWriter(e.writer), w);
    Single(e.hand.value);
    assert CountData(AtWriter(e.writer)) >= Bit(e.writer.AtWrite?) by {
      if e.writer.AtWrite? { Single(DataItem(e.writer.payload)); }
    }
    if e.hand.value.DataItem? { NoFinBefore(AtWriter(e.writer), w, e.hand.value, wire); }
    if !HasFin(w) { WorkCounts(e.inbox); }
  }

  /** What the stream's conservation says about the items one end holds. */
  lemma HeldWithinWindow(role: Role, e: End, peer: End, out: seq<Frame>, back: seq<Frame>, up: bool)
    requires PipeInv(PipeOf(SourceOf(role, e), SinkOf(peer), out, back, up)) && e.window > 0
    ensures FinLast(Held(peer) + Carries(out)) && CountData(Held(peer)) + Bit(peer.writer == AtAck) <= e.window
  {
    hide Scan, Held, CountData, Carries, Acks, FinLast, HasFin;
  }

  /**
   With a window no larger than the peer's inbox, the goroutine that delivers a DATA to a
   full inbox waits only because the local EOF occupies a slot, and never for local I/O.
   A FIN waits for local I/O only behind the local EOF or an earlier FIN.
   */
  lemma DeliveryWaits(s: System, receiver: Role)
    requires Reachable(s)
    ensures var (e, window) := if receiver == Responder then (s.b, s.a.window) else (s.a, s.b.window);
            0 < window <= e.cap <= |e.inbox| && e.hand.Some? ==>
              && (e.hand.value.DataItem? ==> EofItem in e.inbox && !e.writer.AtWrite? && e.writer != AtAck)
              && (e.hand.value.FinItem? && (e.writer.AtWrite? || e.writer == AtAck) ==>
                    EofItem in e.inbox || HasFin(Work(e.inbox)))
  {
    ReachableInv(s);
    hide Reachable, LocalInv, Handshake, PipeInv, PipeOf, SourceOf, SinkOf, Held, CountData, Carries, FinLast, HasFin,
        OneEof, Work;
    var (e, window) := if receiver == Responder then (s.b, s.a.window) else (s.a, s.b.window);
    InboxShape(receiver, e);
    if 0 < window <= e.cap <= |e.inbox| && e.hand.Some? {
      if receiver == Responder {
        HeldWithinWindow(Initiator, s.a, s.b, s.ab, s.ba, s.up);
        FullInbox(e, window, Carries(s.ab));
      } else {
        HeldWithinWindow(Responder, s.b, s.a, s.ba, s.ab, s.up);
        FullInbox(e, window, Carries(s.ba));
      }
    }
  }

  lemma InboxShape(role: Role, e: End)
    requires LocalInv(role, e)
    ensures OneEof(e.inbox) && (e.hand.Some? ==> e.hand.value != EofItem)
  {
    hide FinState, TraceState, BootOrder, Pristine, Waiting, Scan, OneEof;
  }
}
