/**
 One direction of a stream: the reader of one side as source, the writer of the other
 side as sink, DATA and FIN in order between them, DATA_ACK coming back. The moves are
 the only ways an endpoint can touch this direction; PipeInv is what all of them keep.
 */
module Pipe {
  import opened Basics

  // Where a FIN comes from is history: it is not on the wire and no receiver looks at it.
  datatype Origin = FromEOF | FromTimer | FromWriteFailure

  // inboundItem: one unit of work for writeLoop.
  datatype Item = DataItem(payload: Bytes) | FinItem(origin: Origin) | EofItem

  datatype Phase = Absent | Live | Gone

  /**
   The sending side: fins is the number of FINs routed, finished is "readLoop ended", mute
   "some frame was refused or failed".
   */
  datatype Source = Source(window: nat, phase: Phase, sent: Bytes, fins: nat, finished: bool,
                           tokens: nat, taken: bool, stuck: nat, mute: bool)

  /**
   The receiving side: held are the items between the wire and the local connection, finned is
   "open, and a FIN was handled", stopping "the tunnel is".
   */
  datatype Sink = Sink(cap: nat, phase: Phase, held: seq<Item>, finned: bool, written: Bytes, stopped: bool, gap: bool,
                       acking: bool, waste: nat, stopping: bool)

  datatype Pipe = Pipe(src: Source, snk: Sink, wire: seq<Item>, acks: nat, up: bool)

  function Payload(items: seq<Item>): Bytes {
    if items == [] then []
    else (if items[0].DataItem? then items[0].payload else []) + Payload(items[1..])
  }

  function IsData(i: Item): nat { if i.DataItem? then 1 else 0 }

  function CountData(items: seq<Item>): nat {
    if items == [] then 0 else IsData(items[0]) + CountData(items[1..])
  }

  function IsFin(i: Item): nat { if i.FinItem? then 1 else 0 }

  function CountFins(items: seq<Item>): nat {
    if items == [] then 0 else IsFin(items[0]) + CountFins(items[1..])
  }

  function Bit(b: bool): nat { if b then 1 else 0 }

  /** No DATA behind a FIN. */
  predicate FinLast(items: seq<Item>) {
    forall i, j :: 0 <= i < j < |items| && items[i].FinItem? ==> !items[j].DataItem?
  }

  predicate HasFin(items: seq<Item>) { exists i :: 0 <= i < |items| && items[i].FinItem? }

  predicate OnlyWork(items: seq<Item>) { EofItem !in items }

  predicate Ordered(p: Pipe) {
    && OnlyWork(p.snk.held) && OnlyWork(p.wire)
    && FinLast(p.snk.held + p.wire)
    && CountFins(p.snk.held + p.wire) + Bit(p.snk.finned) <= p.src.fins
    && (FinItem(FromEOF) in p.snk.held + p.wire ==> p.src.finished)
    && (p.snk.finned ==> CountData(p.snk.held + p.wire) == 0)
    && (p.snk.phase == Absent ==> p.src.sent == [] && p.snk.written == [] && p.snk.held == [] && CountData(p.wire) == 0)
    && (!p.up ==> p.wire == [] && p.acks == 0)
  }

  /** In order, nothing lost, nothing twice. */
  predicate Faithful(p: Pipe) {
    !p.snk.gap ==>
      && p.snk.written <= p.src.sent
      && (!p.snk.stopped ==>
            && p.snk.written + Payload(p.snk.held) <= p.src.sent
            && (p.up && p.snk.phase == Live ==> p.snk.written + Payload(p.snk.held) + Payload(p.wire) == p.src.sent)
            && (FinItem(FromEOF) in p.snk.held ==> p.snk.written + Payload(p.snk.held) == p.src.sent))
  }

  function Outstanding(p: Pipe): nat {
    CountData(p.snk.held) + CountData(p.wire) + Bit(p.snk.acking) + p.acks
  }

  /** Every token is a DATA under way, an ACK under way, or accounted for. */
  predicate Conserved(p: Pipe) {
    && p.src.tokens <= p.src.window
    && (p.src.window > 0 && p.src.phase == Live && p.up ==>
          p.src.tokens == Outstanding(p) + Bit(p.src.taken) + p.src.stuck + p.snk.waste)
  }

  /** Before the source exists nothing of it is anywhere. */
  predicate Clean(p: Pipe) {
    p.src.phase == Absent ==>
      && p.src.sent == [] && p.src.tokens == 0 && !p.src.taken && p.src.stuck == 0
      && CountData(p.snk.held + p.wire) == 0 && p.acks == 0 && !p.snk.acking && p.snk.waste == 0
  }

  /**
   What is under way is covered by tokens even when an end is gone or the link is down,
   and a dropped DATA has used up one of them for good. So with one single credit nothing
   can follow a dropped DATA.
   */
  predicate Budgeted(p: Pipe) {
    && (p.snk.gap ==> p.snk.waste > 0)
    && (p.src.window > 0 ==> Outstanding(p) + Bit(p.src.taken) + p.snk.waste <= p.src.tokens)
    && (p.src.window == 1 ==> p.snk.written <= p.src.sent)
  }

  /** Every DATA carries something, and what a gap has swallowed is missing for good. */
  predicate Sized(p: Pipe) {
    && (forall i <- p.snk.held + p.wire :: i.DataItem? ==> i.payload != [])
    && |p.snk.written| + |Payload(p.snk.held + p.wire)| + Bit(p.snk.gap) <= |p.src.sent|
  }

  /** A FIN that has left a side reaches the other: nothing loses it on the way to a stream that is open. */
  predicate Heard(p: Pipe) {
    p.src.fins > 0 && !p.src.mute ==>
      && p.snk.phase != Absent
      && (p.up && p.snk.phase == Live && !p.snk.stopping ==>
            CountFins(p.snk.held + p.wire) + Bit(p.snk.finned) > 0)
  }

  /** What is under way and what has been written. */
  predicate Content(p: Pipe) { Ordered(p) && Faithful(p) && Sized(p) && Heard(p) }

  /** What has been taken for it. */
  predicate Balance(p: Pipe) { Clean(p) && Conserved(p) && Budgeted(p) }

  predicate PipeInv(p: Pipe) { Content(p) && Balance(p) }

  lemma {:induction false} PayloadConcat(a: seq<Item>, b: seq<Item>)
    ensures Payload(a + b) == Payload(a) + Payload(b)
    ensures CountData(a + b) == CountData(a) + CountData(b)
    ensures CountFins(a + b) == CountFins(a) + CountFins(b)
  {
    if a == [] {
      assert a + b == b;
    } else {
      PayloadConcat(a[1..], b);
      assert (a + b)[1..] == a[1..] + b && (a + b)[0] == a[0];
      var x, y, z := if a[0].DataItem? then a[0].payload else [], Payload(a[1..]), Payload(b);
      assert Payload(a) == x + y;
      assert Payload(a + b) == x + Payload(a[1..] + b) == x + (y + z);
      Joined(x, y, z);
    }
  }

  lemma Joined(x: Bytes, y: Bytes, z: Bytes)
    ensures x + (y + z) == x + y + z
  {
  }

  lemma {:induction false} NoDataNoPayload(items: seq<Item>)
    requires forall i :: 0 <= i < |items| ==> !items[i].DataItem?
    ensures Payload(items) == [] && CountData(items) == 0
  {
    if items != [] { NoDataNoPayload(items[1..]); }
  }

  lemma {:induction false} NoCountNoPayload(items: seq<Item>)
    ensures CountData(items) == 0 ==> Payload(items) == []
  {
    if items != [] { NoCountNoPayload(items[1..]); }
  }

  // --- moves of the sink: k to k2, taking pop off the wire and putting n ACKs on the way back

  predicate SinkIdle(k: Sink, k2: Sink, pop: seq<Item>, n: nat) {
    && pop == [] && n == 0
    && (k2 == k || k2 == k.(phase := Gone, finned := false) || k2 == k.(stopping := true))
  }

  predicate SinkBorn(k: Sink, k2: Sink, pop: seq<Item>, n: nat) {
    pop == [] && n == 0 && k.phase == Absent && k2 == k.(phase := Live) && !k.stopped
  }

  predicate SinkTakesIn(k: Sink, k2: Sink, pop: seq<Item>, n: nat) {
    |pop| == 1 && n == 0 && k.phase == Live && k2 == k.(held := k.held + pop)
  }

  predicate SinkLoses(k: Sink, k2: Sink, pop: seq<Item>, n: nat) {
    |pop| == 1 && n == 0 && k.phase != Live && k2 == k.(waste := k.waste + IsData(pop[0]))
  }

  predicate SinkDrops(k: Sink, k2: Sink, pop: seq<Item>, n: nat) {
    && pop == [] && n == 0 && k.held != [] && (k.phase == Live ==> k.stopping)
    && var last := k.held[|k.held| - 1];
       k2 == k.(held := k.held[..|k.held| - 1], waste := k.waste + IsData(last),
                gap := k.gap || (k.phase == Live && last.DataItem?))
  }

  predicate SinkWrites(k: Sink, k2: Sink, pop: seq<Item>, n: nat) {
    && pop == [] && n == 0 && k.held != [] && k.held[0].DataItem? && !k.acking && !k.stopped
    && k2 == k.(held := k.held[1..], written := k.written + k.held[0].payload, acking := true)
  }

  predicate SinkFails(k: Sink, k2: Sink, pop: seq<Item>, n: nat) {
    && pop == [] && n == 0 && k.held != [] && k.held[0].DataItem? && !k.stopped
    && k2.written <= k.written + k.held[0].payload && k.written <= k2.written
    && k2 == k.(held := k.held[1..], written := k2.written, stopped := true, waste := k.waste + 1)
  }

  predicate SinkSkipsFin(k: Sink, k2: Sink, pop: seq<Item>, n: nat) {
    && pop == [] && n == 0 && k.held != [] && k.held[0].FinItem? && (k.phase == Live ==> k2.finned)
    && k2 == k.(held := k.held[1..], finned := k2.finned)
  }

  predicate SinkStops(k: Sink, k2: Sink, pop: seq<Item>, n: nat) {
    && pop == [] && n == 0
    && (|| k2 == k.(stopped := true) || k2 == k.(stopped := true, phase := Gone, finned := false)
        || k2 == k.(stopped := true, stopping := true))
  }

  predicate SinkAcks(k: Sink, k2: Sink, pop: seq<Item>, n: nat) {
    && pop == [] && n <= 1 && k.acking
    && k2 == k.(acking := false, waste := k.waste + 1 - n)
  }

  predicate SinkMove(k: Sink, k2: Sink, pop: seq<Item>, n: nat) {
    || SinkIdle(k, k2, pop, n) || SinkBorn(k, k2, pop, n) || SinkTakesIn(k, k2, pop, n)
    || SinkLoses(k, k2, pop, n) || SinkDrops(k, k2, pop, n) || SinkWrites(k, k2, pop, n)
    || SinkFails(k, k2, pop, n) || SinkSkipsFin(k, k2, pop, n) || SinkStops(k, k2, pop, n)
    || SinkAcks(k, k2, pop, n)
  }

  // --- moves of the source: s to s2, putting push on the wire and using n ACKs

  /** Phases only move from Absent to Live to Gone. */
  predicate Later(a: Phase, b: Phase) { a == b || (a == Live && b == Gone) }

  predicate SourceIdle(s: Source, s2: Source, push: seq<Item>, n: nat) {
    && push == [] && n == 0 && (s.finished ==> s2.finished) && (s.mute ==> s2.mute)
    && s.fins <= s2.fins && (s.fins < s2.fins ==> s2.mute) && Later(s.phase, s2.phase)
    && s2 == s.(finished := s2.finished, phase := s2.phase, fins := s2.fins, mute := s2.mute)
  }

  predicate SourceStarts(s: Source, s2: Source, push: seq<Item>, n: nat) {
    push == [] && n == 0 && s.phase == Absent && s2 == s.(phase := Live)
  }

  predicate SourceAcquires(s: Source, s2: Source, push: seq<Item>, n: nat) {
    && push == [] && n == 0 && s.phase != Absent && !s.taken && s.tokens < s.window
    && s2 == s.(tokens := s.tokens + 1, taken := true)
  }

  predicate SourceSends(s: Source, s2: Source, push: seq<Item>, n: nat) {
    && |push| == 1 && push[0].DataItem? && push[0].payload != [] && n == 0 && s.phase == Live
    && (s.window > 0 ==> s.taken) && s.fins == 0 && !s.finished
    && s2 == s.(sent := s.sent + push[0].payload, taken := false)
  }

  predicate SourceFails(s: Source, s2: Source, push: seq<Item>, n: nat) {
    && push == [] && n == 0 && s.phase != Absent && (s.window > 0 ==> s.taken)
    && s2 == s.(taken := false, stuck := if s.window > 0 then s.stuck + 1 else s.stuck, mute := true)
  }

  predicate SourceAnnounces(s: Source, s2: Source, push: seq<Item>, n: nat) {
    && |push| == 1 && push[0].FinItem? && n == 0 && s.phase == Live
    && (push[0].origin == FromEOF ==> s.finished) && Later(s.phase, s2.phase)
    && s2 == s.(fins := s.fins + 1, phase := s2.phase)
  }

  predicate SourceIsAcked(s: Source, s2: Source, push: seq<Item>, n: nat) {
    && push == [] && n == 1
    && s2 == if s.phase == Live && s.window > 0 && s.tokens > 0 then s.(tokens := s.tokens - 1) else s
  }

  predicate SourceMove(s: Source, s2: Source, push: seq<Item>, n: nat) {
    || SourceIdle(s, s2, push, n) || SourceStarts(s, s2, push, n) || SourceAcquires(s, s2, push, n)
    || SourceSends(s, s2, push, n) || SourceFails(s, s2, push, n) || SourceAnnounces(s, s2, push, n)
    || SourceIsAcked(s, s2, push, n)
  }

  // --- every move keeps the invariant

  function AfterSink(p: Pipe, k2: Sink, pop: seq<Item>, n: nat): Pipe
    requires pop <= p.wire
  {
    Pipe(p.src, k2, p.wire[|pop|..], if p.up then p.acks + n else p.acks, p.up)
  }

  function AfterSource(p: Pipe, s2: Source, push: seq<Item>, n: nat): Pipe
    requires n <= p.acks
  {
    Pipe(s2, p.snk, if p.up then p.wire + push else p.wire, p.acks - n, p.up)
  }

  /** The items under way, oldest first. */
  function UnderWay(p: Pipe): seq<Item> { p.snk.held + p.wire }

  /** Taking one item out keeps the order and brings nothing new. */
  lemma Without(a: seq<Item>, x: Item, b: seq<Item>)
    ensures FinLast(a + [x] + b) ==> FinLast(a + b)
    ensures HasFin(a + b) ==> HasFin(a + [x] + b)
    ensures forall y <- a + b :: y in a + [x] + b
  {
    var all, rest := a + [x] + b, a + b;
    assert forall j :: 0 <= j < |rest| ==> rest[j] == all[if j < |a| then j else j + 1];
  }

  lemma {:induction false} FinsCount(items: seq<Item>)
    ensures HasFin(items) <==> CountFins(items) > 0
  {
    if items != [] {
      FinsCount(items[1..]);
      assert items == [items[0]] + items[1..];
      assert forall i :: 0 < i < |items| ==> items[i] == items[1..][i - 1];
      assert forall i :: 0 <= i < |items| - 1 ==> items[1..][i] == items[i + 1];
    }
  }

  lemma Single(x: Item)
    ensures Payload([x]) == if x.DataItem? then x.payload else []
    ensures CountData([x]) == IsData(x) && CountFins([x]) == IsFin(x)
  {
  }

  lemma KeepIdle(p: Pipe, k2: Sink, pop: seq<Item>, n: nat)
    requires PipeInv(p) && pop <= p.wire && SinkIdle(p.snk, k2, pop, n)
    ensures PipeInv(AfterSink(p, k2, pop, n))
  {
    hide Payload, CountData, CountFins, FinLast, HasFin;
    NoCountNoPayload(p.wire);
    NoCountNoPayload([]);
    assert p.wire[0..] == p.wire;
  }

  lemma KeepBorn(p: Pipe, k2: Sink, pop: seq<Item>, n: nat)
    requires PipeInv(p) && pop <= p.wire && SinkBorn(p.snk, k2, pop, n)
    ensures PipeInv(AfterSink(p, k2, pop, n))
  {
    hide Payload, CountData, CountFins, FinLast, HasFin;
    NoCountNoPayload(p.wire);
    NoCountNoPayload([]);
    assert p.wire[0..] == p.wire;
  }

  lemma KeepStops(p: Pipe, k2: Sink, pop: seq<Item>, n: nat)
    requires PipeInv(p) && pop <= p.wire && SinkStops(p.snk, k2, pop, n)
    ensures PipeInv(AfterSink(p, k2, pop, n))
  {
    hide Payload, CountData, CountFins, FinLast, HasFin;
    NoCountNoPayload(p.wire);
    NoCountNoPayload([]);
    assert p.wire[0..] == p.wire;
  }

  lemma KeepAcks(p: Pipe, k2: Sink, pop: seq<Item>, n: nat)
    requires PipeInv(p) && pop <= p.wire && SinkAcks(p.snk, k2, pop, n)
    ensures PipeInv(AfterSink(p, k2, pop, n))
  {
    hide Payload, CountData, CountFins, FinLast, HasFin;
    NoCountNoPayload(p.wire);
    NoCountNoPayload([]);
    assert p.wire[0..] == p.wire;
  }

  lemma BehindFin(a: seq<Item>, x: Item, b: seq<Item>)
    requires FinLast(a + [x] + b) && x.FinItem?
    ensures Payload(b) == [] && CountData(b) == 0
  {
    forall j | 0 <= j < |b| ensures !b[j].DataItem? {
      assert (a + [x] + b)[|a|] == x && (a + [x] + b)[|a| + 1 + j] == b[j];
    }
    NoDataNoPayload(b);
  }

  lemma TakenIn(p: Pipe, k2: Sink, pop: seq<Item>, n: nat)
    requires pop <= p.wire && SinkTakesIn(p.snk, k2, pop, n)
    ensures var q := AfterSink(p, k2, pop, n);
            && p.wire == pop + q.wire && pop == [pop[0]]
            && UnderWay(q) == UnderWay(p) == p.snk.held + [pop[0]] + q.wire
            && CountData(k2.held) + CountData(q.wire) == CountData(p.snk.held) + CountData(p.wire)
            && Payload(k2.held) == Payload(p.snk.held) + Payload(pop)
            && Payload(p.wire) == Payload(pop) + Payload(q.wire)
  {
    hide CountFins, FinLast, HasFin, Payload, CountData;
    var q := AfterSink(p, k2, pop, n);
    assert p.wire == pop + q.wire && pop == [pop[0]];
    assert UnderWay(q) == UnderWay(p) == p.snk.held + [pop[0]] + q.wire;
    PayloadConcat(pop, q.wire);
    PayloadConcat(p.snk.held, pop);
  }

  lemma TakesInContent(p: Pipe, k2: Sink, pop: seq<Item>, n: nat)
    requires Content(p) && pop <= p.wire && SinkTakesIn(p.snk, k2, pop, n)
    ensures Content(AfterSink(p, k2, pop, n))
  {
    hide Payload, CountData, CountFins, FinLast, HasFin;
    var q := AfterSink(p, k2, pop, n);
    TakenIn(p, k2, pop, n);
    if pop[0].FinItem? { BehindFin(p.snk.held, pop[0], q.wire); }
    var w, h, c := p.snk.written, Payload(p.snk.held), Payload(pop);
    assert w + (h + c) + Payload(q.wire) == w + h + (c + Payload(q.wire));
  }

  lemma KeepTakesIn(p: Pipe, k2: Sink, pop: seq<Item>, n: nat)
    requires PipeInv(p) && pop <= p.wire && SinkTakesIn(p.snk, k2, pop, n)
    ensures PipeInv(AfterSink(p, k2, pop, n))
  {
    hide Payload, CountData, CountFins, FinLast, HasFin, Content;
    TakesInContent(p, k2, pop, n);
    TakenIn(p, k2, pop, n);
  }

  lemma KeepLoses(p: Pipe, k2: Sink, pop: seq<Item>, n: nat)
    requires PipeInv(p) && pop <= p.wire && SinkLoses(p.snk, k2, pop, n)
    ensures PipeInv(AfterSink(p, k2, pop, n))
  {
    hide Payload, CountData, CountFins, FinLast, HasFin;
    var q := AfterSink(p, k2, pop, n);
    assert p.wire == pop + q.wire && pop == [pop[0]];
    assert UnderWay(p) == p.snk.held + [pop[0]] + q.wire;
    Without(p.snk.held, pop[0], q.wire);
    PayloadConcat(pop, q.wire);
    PayloadConcat(p.snk.held, p.wire);
    PayloadConcat(p.snk.held, q.wire);
    Single(pop[0]);
  }

  /** The last item held is no DATA that carries bytes behind the end of the stream. */
  lemma LastAfterEof(p: Pipe, rest: seq<Item>, last: Item)
    requires FinLast(UnderWay(p)) && p.snk.held == rest + [last] && FinItem(FromEOF) in rest
    ensures Payload([last]) == []
  {
    var i :| 0 <= i < |rest| && rest[i] == FinItem(FromEOF);
    assert UnderWay(p)[i] == FinItem(FromEOF) && UnderWay(p)[|rest|] == last;
    Single(last);
  }

  lemma DroppedLast(p: Pipe, k2: Sink, pop: seq<Item>, n: nat)
    requires SinkDrops(p.snk, k2, pop, n)
    ensures var last := p.snk.held[|p.snk.held| - 1];
            && p.snk.held == k2.held + [last] && p.wire[0..] == p.wire
            && UnderWay(p) == k2.held + [last] + p.wire
            && CountData(p.snk.held) == CountData(k2.held) + IsData(last)
            && CountData(UnderWay(p)) == CountData(k2.held + p.wire) + IsData(last)
            && CountFins(UnderWay(p)) == CountFins(k2.held + p.wire) + IsFin(last)
            && Payload(p.snk.held) == Payload(k2.held) + Payload([last])
            && |Payload(UnderWay(p))| == |Payload(k2.held + p.wire)| + |Payload([last])|
  {
    hide Payload, CountData, CountFins, FinLast, HasFin;
    var last := p.snk.held[|p.snk.held| - 1];
    assert p.snk.held == k2.held + [last];
    PayloadConcat(k2.held, [last]);
    PayloadConcat(p.snk.held, p.wire);
    PayloadConcat(k2.held, p.wire);
    Single(last);
  }

  lemma DropsContent(p: Pipe, k2: Sink, pop: seq<Item>, n: nat)
    requires Content(p) && SinkDrops(p.snk, k2, pop, n)
    ensures Content(AfterSink(p, k2, pop, n))
  {
    hide Payload, CountData, CountFins, FinLast, HasFin;
    var last := p.snk.held[|p.snk.held| - 1];
    DroppedLast(p, k2, pop, n);
    Without(k2.held, last, p.wire);
    Single(last);
    if FinItem(FromEOF) in k2.held { LastAfterEof(p, k2.held, last); }
    assert p.snk.written + Payload(p.snk.held) == p.snk.written + Payload(k2.held) + Payload([last]);
  }

  /** Dropping an item unwritten: only a DATA item of a live stream leaves a gap. */
  lemma KeepDrops(p: Pipe, k2: Sink, pop: seq<Item>, n: nat)
    requires PipeInv(p) && SinkDrops(p.snk, k2, pop, n)
    ensures PipeInv(AfterSink(p, k2, pop, n))
  {
    hide Payload, CountData, CountFins, FinLast, HasFin, Content;
    DropsContent(p, k2, pop, n);
    DroppedLast(p, k2, pop, n);
  }

  /** What is left when the oldest item is taken. */
  lemma HeadTaken(p: Pipe, rest: seq<Item>)
    requires PipeInv(p) && p.snk.held != [] && rest == p.snk.held[1..]
    ensures FinLast(rest + p.wire) && OnlyWork(rest)
    ensures forall y <- rest + p.wire :: y in UnderWay(p)
    ensures var c := if p.snk.held[0].DataItem? then p.snk.held[0].payload else [];
            p.snk.written + Payload(p.snk.held) == p.snk.written + c + Payload(rest)
    ensures CountData(p.snk.held) == IsData(p.snk.held[0]) + CountData(rest)
    ensures CountData(UnderWay(p)) == IsData(p.snk.held[0]) + CountData(rest + p.wire)
    ensures CountFins(UnderWay(p)) == IsFin(p.snk.held[0]) + CountFins(rest + p.wire)
    ensures |Payload(UnderWay(p))|
            == (if p.snk.held[0].DataItem? then |p.snk.held[0].payload| else 0) + |Payload(rest + p.wire)|
    ensures p.snk.held[0].FinItem? ==> CountData(rest + p.wire) == 0
  {
    var head := p.snk.held[0];
    HeadSplit(p.snk.held, p.wire);
    Single(head);
    assert FinLast(UnderWay(p)) && OnlyWork(p.snk.held);
    hide Payload, CountData, CountFins, FinLast, HasFin, PipeInv;
    assert p.snk.held == [head] + rest;
    assert UnderWay(p) == [] + [head] + (rest + p.wire);
    assert [] + (rest + p.wire) == rest + p.wire;
    Without([], head, rest + p.wire);
    if head.FinItem? { BehindFin([], head, rest + p.wire); }
    Joined(p.snk.written, Payload([head]), Payload(rest));
  }

  lemma HeadSplit(held: seq<Item>, wire: seq<Item>)
    requires held != []
    ensures Payload(held) == Payload([held[0]]) + Payload(held[1..])
    ensures |Payload(held + wire)| == |Payload([held[0]])| + |Payload(held[1..] + wire)|
    ensures CountData(held) == IsData(held[0]) + CountData(held[1..])
    ensures CountData(held + wire) == IsData(held[0]) + CountData(held[1..] + wire)
    ensures CountFins(held + wire) == IsFin(held[0]) + CountFins(held[1..] + wire)
  {
    Single(held[0]);
    hide Payload, CountData, CountFins;
    assert held == [held[0]] + held[1..];
    assert held + wire == [held[0]] + (held[1..] + wire);
    PayloadConcat([held[0]], held[1..]);
    PayloadConcat([held[0]], held[1..] + wire);
  }

  /** The oldest item is written, or it is a FIN and is handled. */
  lemma KeepHead(p: Pipe, k2: Sink, pop: seq<Item>, n: nat)
    requires PipeInv(p) && (SinkWrites(p.snk, k2, pop, n) || SinkSkipsFin(p.snk, k2, pop, n))
    ensures PipeInv(AfterSink(p, k2, pop, n))
  {
    hide Payload, CountData, CountFins, FinLast, HasFin;
    HeadTaken(p, k2.held);
    assert p.wire[0..] == p.wire;
  }

  /** A failed write loses the oldest item, and nothing is written after it. */
  lemma KeepFails(p: Pipe, k2: Sink, pop: seq<Item>, n: nat)
    requires PipeInv(p) && SinkFails(p.snk, k2, pop, n)
    ensures PipeInv(AfterSink(p, k2, pop, n))
  {
    hide Payload, CountData, CountFins, FinLast, HasFin;
    HeadTaken(p, k2.held);
    assert p.wire[0..] == p.wire;
  }

  lemma KeepSink(p: Pipe, k2: Sink, pop: seq<Item>, n: nat)
    requires PipeInv(p) && pop <= p.wire && SinkMove(p.snk, k2, pop, n)
    ensures PipeInv(AfterSink(p, k2, pop, n))
  {
    hide PipeInv;
    if SinkTakesIn(p.snk, k2, pop, n) {
      KeepTakesIn(p, k2, pop, n);
    } else if SinkLoses(p.snk, k2, pop, n) {
      KeepLoses(p, k2, pop, n);
    } else if SinkDrops(p.snk, k2, pop, n) {
      KeepDrops(p, k2, pop, n);
    } else if SinkWrites(p.snk, k2, pop, n) || SinkSkipsFin(p.snk, k2, pop, n) {
      KeepHead(p, k2, pop, n);
    } else if SinkFails(p.snk, k2, pop, n) {
      KeepFails(p, k2, pop, n);
    } else if SinkIdle(p.snk, k2, pop, n) {
      KeepIdle(p, k2, pop, n);
    } else if SinkBorn(p.snk, k2, pop, n) {
      KeepBorn(p, k2, pop, n);
    } else if SinkStops(p.snk, k2, pop, n) {
      KeepStops(p, k2, pop, n);
    } else {
      KeepAcks(p, k2, pop, n);
    }
  }

  lemma SourceContent(p: Pipe, s2: Source, push: seq<Item>, n: nat)
    requires Content(p) && n <= p.acks && SourceMove(p.src, s2, push, n)
    requires !SourceSends(p.src, s2, push, n) && !SourceAnnounces(p.src, s2, push, n)
    ensures Content(AfterSource(p, s2, push, n))
  {
    hide Payload, CountData, CountFins, FinLast, HasFin;
    assert p.wire + push == p.wire;
  }

  lemma KeepSource(p: Pipe, s2: Source, push: seq<Item>, n: nat)
    requires PipeInv(p) && n <= p.acks && SourceMove(p.src, s2, push, n)
    requires !SourceSends(p.src, s2, push, n) && !SourceAnnounces(p.src, s2, push, n)
    ensures PipeInv(AfterSource(p, s2, push, n))
  {
    hide Payload, CountData, CountFins, FinLast, HasFin, Content;
    SourceContent(p, s2, push, n);
    assert p.wire + push == p.wire;
    PayloadConcat(p.snk.held, p.wire);
  }

  lemma Behind(a: seq<Item>, x: Item)
    requires FinLast(a) && (x.DataItem? ==> !HasFin(a))
    ensures FinLast(a + [x])
    ensures HasFin(a + [x]) ==> HasFin(a) || x.FinItem?
  {
  }

  lemma SendsContent(p: Pipe, s2: Source, push: seq<Item>, n: nat)
    requires Content(p) && n <= p.acks && p.snk.phase != Absent
    requires SourceSends(p.src, s2, push, n) || SourceAnnounces(p.src, s2, push, n)
    ensures Content(AfterSource(p, s2, push, n))
  {
    hide Payload, CountData, CountFins, FinLast, HasFin;
    assert push == [push[0]];
    FinsCount(UnderWay(p));
    Behind(UnderWay(p), push[0]);
    assert p.snk.held + (p.wire + push) == UnderWay(p) + [push[0]];
    PayloadConcat(p.wire, push);
    PayloadConcat(UnderWay(p), push);
    Single(push[0]);
    var w, h, c := p.snk.written, Payload(p.snk.held), Payload(p.wire);
    assert w + h + (c + Payload(push)) == w + h + c + Payload(push);
  }

  /** A sink in the stream table or gone from it can be sent to. */
  lemma KeepSends(p: Pipe, s2: Source, push: seq<Item>, n: nat)
    requires PipeInv(p) && n <= p.acks && p.snk.phase != Absent
    requires SourceSends(p.src, s2, push, n) || SourceAnnounces(p.src, s2, push, n)
    ensures PipeInv(AfterSource(p, s2, push, n))
  {
    hide Payload, CountData, CountFins, FinLast, HasFin, Content;
    SendsContent(p, s2, push, n);
    assert push == [push[0]];
    PayloadConcat(p.snk.held, p.wire);
    PayloadConcat(p.wire, push);
    Single(push[0]);
  }
}
