/**
 HandleFrame and local I/O. The receive goroutine hands every item to the inbox of its
 stream, and waits when the inbox is full. This module says for which window and inbox
 sizes it can wait there while writeLoop is in a write to the local connection.
 */
module StreamWaits {
  import opened Basics
  import opened Pipe
  import opened StreamEndpoint
  import opened StreamLocal
  import opened StreamSystem
  import opened StreamTheorems
  import opened StreamRuns

  /** The receive goroutine holds an item its stream has no room for, while the writer is in a local write. */
  predicate WaitsOnWrite(e: End) { e.phase == Live && e.hand.Some? && |e.inbox| == e.cap && e.writer.AtWrite? }

  /** And that item is a DATA. */
  predicate DataWaits(e: End) { WaitsOnWrite(e) && e.hand.value.DataItem? }

  // --- large inboxes: the receive goroutine never waits for a write

  /** What is queued is DATA, FINs and at most one local EOF. */
  lemma {:induction false} QueueCounts(items: seq<Item>)
    requires OneEof(items)
    ensures |items| <= CountData(Work(items)) + CountFins(Work(items)) + Bit(EofItem in items)
  {
    if items != [] {
      var rest := items[1..];
      assert items == [items[0]] + rest;
      assert forall i :: 0 <= i < |rest| ==> rest[i] == items[i + 1];
      var first: seq<Item> := if items[0] == EofItem then [] else [items[0]];
      assert Work(items) == first + Work(rest);
      QueueCounts(rest);
      PayloadConcat(first, Work(rest));
      Single(items[0]);
    }
  }

  lemma HeldCounts(e: End)
    requires OneEof(e.inbox) && e.hand.Some? && e.hand.value != EofItem && e.writer.AtWrite?
    ensures |e.inbox| + 1 <= CountData(Held(e)) + CountFins(Held(e))
  {
    var write, hand := [DataItem(e.writer.payload)], [e.hand.value];
    assert Held(e) == write + Work(e.inbox) + hand;
    hide CountData, CountFins, Work;
    QueueCounts(e.inbox);
    PayloadConcat(write + Work(e.inbox), hand);
    PayloadConcat(write, Work(e.inbox));
    Single(e.hand.value);
    Single(DataItem(e.writer.payload));
  }

  /** DATA is bounded by the window, FINs by the two a side can route. */
  lemma HeldBounds(p: Pipe)
    requires PipeInv(p) && p.src.window > 0 && p.src.fins <= 2
    ensures CountData(p.snk.held) + CountFins(p.snk.held) <= p.src.window + 2
  {
    hide CountData, CountFins, FinLast;
    PayloadConcat(p.snk.held, p.wire);
  }

  lemma RoomForAll(s: System, side: Role)
    requires Inv(s) && Mine(s, side).window > 0 && Peer(s, side).cap > Mine(s, side).window + 1
    ensures !WaitsOnWrite(Peer(s, side))
  {
    hide LocalInv, Handshake, PipeInv, Held, Carries, Acks, Scan;
    if WaitsOnWrite(Peer(s, side)) {
      InboxShape(if side == Initiator then Responder else Initiator, Peer(s, side));
      HeldBounds(if side == Initiator then Forward(s) else Backward(s));
      HeldCounts(Peer(s, side));
    }
  }

  // --- small inboxes: a run in which it does

  predicate OnlyItems(frames: seq<Frame>) { forall f <- frames :: f.Data? || f.Fin? }

  lemma OneItem(f: Frame)
    requires f.Data? || f.Fin?
    ensures Carried(f) == [Carried(f)[0]]
  {
  }

  predicate OnlyDatas(frames: seq<Frame>) { forall f <- frames :: f.Data? }

  /** The wait that the frames under way lead to. */
  predicate Waits(e: End, frames: seq<Frame>) { WaitsOnWrite(e) && (OnlyDatas(frames) ==> DataWaits(e)) }

  lemma FindsNoRoom(s: System, f: Frame, later: seq<Frame>)
    requires s.up && s.b.phase == Live && s.b.hand == None && s.b.writer.AtWrite? && |s.b.inbox| == s.b.cap
    requires s.ab == [f] + later && (f.Data? || f.Fin?)
    ensures exists t: System :: Path(s, t) && Waits(t.b, s.ab)
  {
    PathEmpty(s);
    OneItem(f);
    var e := s.b.(hand := Some(Carried(f)[0]));
    assert Taken(Deliver(f, true, true, Ok)) == [f];
    assert f in s.ab && (f.Data? ==> Carried(f)[0].DataItem?);
    Receives(Responder, s.b, f);
    hide Enabled, Step, Path, Carried;
    GoesB(s, s, Deliver(f, true, true, Ok), e, [], later);
    assert Waits(e, s.ab);
  }

  /** A writer busy with a local write does not empty the inbox: what arrives fills it, and the next item waits. */
  lemma {:induction false} Overflows(s: System)
    requires s.up && s.b.phase == Live && s.b.hand == None && s.b.writer.AtWrite? && OnlyItems(s.ab)
    requires |s.b.inbox| <= s.b.cap < |s.b.inbox| + |s.ab|
    ensures exists t: System :: Path(s, t) && Waits(t.b, s.ab)
    decreases |s.ab|
  {
    hide Path, Carried, WaitsOnWrite, DataWaits;
    var f, later := s.ab[0], s.ab[1..];
    assert s.ab == [f] + later && f in s.ab && forall g <- later :: g in s.ab;
    if |s.b.inbox| == s.b.cap {
      FindsNoRoom(s, f, later);
    } else {
      var t := s.(b := s.b.(inbox := s.b.inbox + Carried(f)), ab := later);
      OneItem(f);
      TakesIn(s, f, later);
      Overflows(t);
      var u: System :| Path(t, u) && Waits(u.b, later);
      PathTrans(s, t, u);
      assert Waits(u.b, s.ab);
    }
  }

  /** a sends k DATA and, because its own write fails, two FINs. */
  function Flood(k: nat): seq<Frame> { Datas(1, k) + [Fin(FromEOF)] + [Fin(FromWriteFailure)] }

  lemma Floods(s: System, k: nat)
    requires Begun(s) && s.up && s.ab == [] && s.ba == [] && Unended(s.a) && s.a.reader == AtRead
             && s.b.reader == AtRead
    requires (s.a.window == 0 || s.a.tokens + k <= s.a.window) && s.b.bound
             && (s.b.window == 0 || s.b.tokens < s.b.window)
    ensures exists a2: End :: Path(s, System(a2, Handed(s.b, 2), Flood(k), [], true))
  {
    var b2 := Handed(s.b, 2);
    var s1 := System(s.a, b2, [], [Data([2])], true);
    var s2 := System(HandedMany(s.a, 1, k), b2, Datas(1, k), [Data([2])], true);
    assert [] + [Data([2])] == [Data([2])] && [] + Datas(1, k) == Datas(1, k);
    assert Begun(s2) && Unended(s2.a) && b2.phase == s.b.phase;
    hide Path, Handed, HandedMany, Torn, Finished;
    PeerHands(s, 2);
    HandsMany(s1, 1, k);
    PathTrans(s, s1, s2);
    ClosesTwice(s2, [2]);
    PathTrans(s, s2, System(Torn(Finished(s2.a).(writer := AtWrite([2]))), b2, Flood(k), [], true));
  }

  /** b is writing the first DATA and has queued its own end when the rest arrives. */
  lemma Blocks(s: System, later: seq<Frame>)
    requires s.up && s.b.phase == Live && s.b.conn && s.b.writer == Idle && s.b.inbox == [] && s.b.hand == None
    requires s.b.reader == AtRead && 0 < s.b.cap <= |later| && s.ab == [Data([1])] + later && OnlyItems(later)
    ensures exists t: System :: Path(s, t) && Waits(t.b, later)
  {
    var s1 := s.(b := s.b.(writer := AtWrite([1])), ab := later);
    var s2 := s1.(b := s1.b.(reader := ReaderDone, inbox := [EofItem]));
    assert [] + [EofItem] == [EofItem];
    hide Path, WaitsOnWrite, Waits, OnlyItems;
    EntersWrite(s, [1], later);
    QueuesEof(s1);
    PathTrans(s, s1, s2);
    Overflows(s2);
    var t: System :| Path(s2, t) && Waits(t.b, later);
    PathTrans(s, s2, t);
  }

  lemma FloodBegins(k: nat)
    requires k > 0
    ensures |Flood(k)| == k + 2 && Flood(k) == [Data([1])] + Flood(k)[1..] && OnlyItems(Flood(k)[1..])
    ensures Datas(1, k) == [Data([1])] + Datas(1, k)[1..] && OnlyDatas(Datas(1, k)[1..]) && OnlyItems(Datas(1, k)[1..])
  {
    assert Datas(1, k)[0] in Datas(1, k);
    assert forall f <- Flood(k)[1..] :: f in Flood(k);
    assert forall f <- Datas(1, k)[1..] :: f in Datas(1, k);
  }

  /**
   In either direction, HandleFrame can wait for a local write unless the inbox has room for two
   items more than the window.
   */
  lemma CanWait(side: Role, windowA: nat, capA: nat, windowB: nat, capB: nat)
    requires capA > 0 && capB > 0
    requires var (window, cap) := if side == Initiator then (windowA, capB) else (windowB, capA);
             window == 0 || cap <= window + 1
    ensures exists t: System :: Path(Initial(windowA, capA, windowB, capB), t) && WaitsOnWrite(Peer(t, side))
  {
    var s := View(Opened(windowA, capA, windowB, capB), side);
    var k := if s.a.window == 0 then s.b.cap else s.a.window;
    Usable(windowA, capA, windowB, capB, side);
    hide Path, WaitsOnWrite, Opened, View, Initial, Flood;
    Floods(s, k);
    var a2: End :| Path(s, System(a2, Handed(s.b, 2), Flood(k), [], true));
    var s2 := System(a2, Handed(s.b, 2), Flood(k), [], true);
    FloodBegins(k);
    Blocks(s2, Flood(k)[1..]);
    var u: System :| Path(s2, u) && Waits(u.b, Flood(k)[1..]);
    PathTrans(s, s2, u);
    FromTheStart(windowA, capA, windowB, capB, side, u);
    Seen(u, side);
  }

  /** A DATA can wait for a local write with a window larger than the inbox. */
  lemma DataCanWait(side: Role, windowA: nat, capA: nat, windowB: nat, capB: nat)
    requires capA > 0 && capB > 0
    requires var (window, cap) := if side == Initiator then (windowA, capB) else (windowB, capA);
             window == 0 || cap < window
    ensures exists t: System :: Path(Initial(windowA, capA, windowB, capB), t) && DataWaits(Peer(t, side))
  {
    var s := View(Opened(windowA, capA, windowB, capB), side);
    var k := s.b.cap + 1;
    var s2 := System(HandedMany(s.a, 1, k), s.b, Datas(1, k), [], true);
    Usable(windowA, capA, windowB, capB, side);
    assert [] + Datas(1, k) == Datas(1, k);
    FloodBegins(k);
    hide Path, WaitsOnWrite, DataWaits, Opened, View, Initial, Datas, HandedMany, OnlyItems, OnlyDatas;
    HandsMany(s, 1, k);
    Blocks(s2, Datas(1, k)[1..]);
    var u: System :| Path(s2, u) && Waits(u.b, Datas(1, k)[1..]);
    PathTrans(s, s2, u);
    FromTheStart(windowA, capA, windowB, capB, side, u);
    Seen(u, side);
  }

  lemma Seen(u: System, side: Role)
    ensures Peer(View(u, side), side) == u.b && Mine(View(u, side), side) == u.a
  {
  }

  /** What an open stream on which nothing has happened looks like from either side. */
  lemma Usable(windowA: nat, capA: nat, windowB: nat, capB: nat, side: Role)
    requires capA > 0 && capB > 0
    ensures var s := View(Opened(windowA, capA, windowB, capB), side);
            && Begun(s) && s.up && s.ab == [] && s.ba == []
            && Unended(s.a) && Unended(s.b) && s.a.reader == AtRead && s.b.reader == AtRead && s.a.tokens == 0
               && s.b.tokens == 0
            && s.a.window == (if side == Initiator then windowA else windowB)
            && s.b.cap == (if side == Initiator then capB else capA)
  {
  }

  // --- exactly

  /**
   "HandleFrame never blocks on local I/O" is true of a direction exactly when its window
   is on and the inbox at its end has room for at least two items more than the window.
   */
  lemma WaitsExactly(side: Role, windowA: nat, capA: nat, windowB: nat, capB: nat)
    requires capA > 0 && capB > 0
    ensures var (window, cap) := if side == Initiator then (windowA, capB) else (windowB, capA);
            (exists t: System :: Path(Initial(windowA, capA, windowB, capB), t) && WaitsOnWrite(Peer(t, side)))
            <==> window == 0 || cap <= window + 1
  {
    hide Path, WaitsOnWrite;
    var s := Initial(windowA, capA, windowB, capB);
    var (window, cap) := if side == Initiator then (windowA, capB) else (windowB, capA);
    if window == 0 || cap <= window + 1 {
      CanWait(side, windowA, capA, windowB, capB);
    } else {
      forall t: System | Path(s, t)
        ensures !WaitsOnWrite(Peer(t, side))
      {
        NeverWaits(side, windowA, capA, windowB, capB, t);
      }
    }
  }

  lemma NeverWaits(side: Role, windowA: nat, capA: nat, windowB: nat, capB: nat, t: System)
    requires Path(Initial(windowA, capA, windowB, capB), t)
    requires var (window, cap) := if side == Initiator then (windowA, capB) else (windowB, capA);
             0 < window && window + 1 < cap
    ensures !WaitsOnWrite(Peer(t, side))
  {
    var s := Initial(windowA, capA, windowB, capB);
    hide Inv, Run, WaitsOnWrite;
    var evs: seq<Event> :| Run(s, evs) == Some(t);
    InitialInv(windowA, capA, windowB, capB);
    RunInv(s, evs);
    SizesInRun(s, evs);
    RoomForAll(t, side);
  }

  /** For DATA alone an inbox as large as the window is enough, and as in the default configuration. */
  lemma DataWaitsExactly(side: Role, windowA: nat, capA: nat, windowB: nat, capB: nat)
    requires capA > 0 && capB > 0
    ensures var (window, cap) := if side == Initiator then (windowA, capB) else (windowB, capA);
            (exists t: System :: Path(Initial(windowA, capA, windowB, capB), t) && DataWaits(Peer(t, side)))
            <==> window == 0 || cap < window
  {
    hide Path, DataWaits;
    var s := Initial(windowA, capA, windowB, capB);
    var (window, cap) := if side == Initiator then (windowA, capB) else (windowB, capA);
    if window == 0 || cap < window {
      DataCanWait(side, windowA, capA, windowB, capB);
    } else {
      forall t: System | Path(s, t)
        ensures !DataWaits(Peer(t, side))
      {
        DataNeverWaits(side, windowA, capA, windowB, capB, t);
      }
    }
  }

  lemma DataNeverWaits(side: Role, windowA: nat, capA: nat, windowB: nat, capB: nat, t: System)
    requires Path(Initial(windowA, capA, windowB, capB), t)
    requires var (window, cap) := if side == Initiator then (windowA, capB) else (windowB, capA);
             0 < window <= cap
    ensures !DataWaits(Peer(t, side))
  {
    var s := Initial(windowA, capA, windowB, capB);
    hide Inv, Run;
    var evs: seq<Event> :| Run(s, evs) == Some(t);
    InitialInv(windowA, capA, windowB, capB);
    SizesInRun(s, evs);
    assert Reachable(t);
    hide Reachable, HasFin, Work;
    DeliveryWaits(t, if side == Initiator then Responder else Initiator);
  }
}
