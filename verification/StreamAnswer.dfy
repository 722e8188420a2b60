/**
 The answer to a CONNECT: what a refused dial does to both ends, and what becomes of an initiator
 whose answer is lost.
 */
module StreamAnswer {
  import opened Basics
  import opened Pipe
  import opened StreamEndpoint
  import opened StreamLocal
  import opened StreamSystem
  import opened StreamGrammar
  import opened StreamRuns

  // --- a failed dial

  lemma Refuses(e: End, res: Result)
    requires e.boot == AtDial
    ensures Enabled(Responder, DialFailed(res), e)
    ensures var o := Step(Responder, DialFailed(res), e);
            && (e.phase == Live ==> o.e.phase == Gone && !o.e.bound && o.frames == Passed(e, SynAck(false), res))
            && (e.phase != Live ==> o.e == e.(boot := Booted) && o.frames == [])
  {
    if e.phase == Live {} else {}
  }

  lemma IsRefused(e: End)
    requires e.hand == None
    ensures Enabled(Initiator, Deliver(SynAck(false), true, true, Ok), e)
    ensures var o := Step(Initiator, Deliver(SynAck(false), true, true, Ok), e);
            o.e.phase == (if e.phase == Live then Gone else e.phase) && o.e.trace == e.trace && o.frames == []
            && (e.phase == Live ==> !o.e.bound)
  {
    if e.phase == Live {} else {}
  }

  /** What the initiator's side looks like while the responder dials. */
  lemma WhileDialling(s: System)
    requires Inv(s) && (s.b.boot == AtDial || s.b.boot == AtSynAck)
    ensures s.ba == [] && s.a.hand == None && s.a.boot == Booted && (s.a.phase == Live ==> !s.a.ready)
    ensures s.a.phase != Absent
  {
    hide PipeInv, PipeOf, Scan, EofLast, FinState, TraceState, Pristine, Waiting;
  }

  lemma DiallingIsBegun(s: System)
    requires Inv(s) && s.b.boot == AtDial
    ensures s.b.phase != Absent && (s.b.phase == Gone ==> !s.b.bound)
  {
    hide PipeInv, PipeOf, Scan, EofLast, FinState, TraceState, Pristine, Waiting, Handshake;
  }

  lemma NotBoundWhenGone(s: System)
    requires Inv(s)
    ensures s.a.bound ==> s.a.phase == Live
  {
    hide PipeInv, PipeOf, Scan, EofLast, FinState, TraceState, Pristine, Waiting, Handshake, BootOrder;
  }

  /** The responder's step in the system. */
  lemma DialFails(s: System, res: Result)
    requires s.b.boot == AtDial && s.ba == [] && (s.b.phase == Gone ==> !s.b.bound) && s.b.phase != Absent
    ensures CanStep(s, ByB(DialFailed(res)))
    ensures var t := Next(s, ByB(DialFailed(res)));
            && t.b.phase == Gone && !t.b.bound && t.a == s.a && t.ab == s.ab && t.up == s.up
            && t.ba == (if s.b.phase == Live && Sends(s.b, res) && s.up then [SynAck(false)] else [])
  {
    Refuses(s.b, res);
    hide Step, Enabled, Sends;
    assert [] + [SynAck(false)] == [SynAck(false)] && s.ba + [] == s.ba;
  }

  /** The refusal reaches the initiator. */
  lemma RefusalEnds(t: System)
    requires t.ba == [SynAck(false)] && t.up && t.a.hand == None && t.a.phase != Absent
             && (t.a.bound ==> t.a.phase == Live)
    ensures var refusal := ByA(Deliver(SynAck(false), true, true, Ok));
            && CanStep(t, refusal)
            && var u := Next(t, refusal);
               && u.a.phase == Gone && !u.a.bound && u.a.trace == t.a.trace
               && u.b == t.b && u.ba == [] && u.ab == t.ab
  {
    IsRefused(t.a);
    GoneUnbound(t.a);
    hide Step, Enabled;
    assert t.ab + [] == t.ab;
  }

  lemma GoneUnbound(e: End)
    requires e.hand == None
    ensures e.phase == Gone ==> Step(Initiator, Deliver(SynAck(false), true, true, Ok), e).e == e
  {
  }

  /**
   A failed dial takes the responder's stream out, and the refusal, if the session takes
   it, is then the only thing on its way and takes the initiator's out, too: neither side
   answers it, and nothing of the stream is left in a table or bound.
   */
  lemma FailedDialEndsBoth(s: System, res: Result)
    requires Reachable(s) && s.b.boot == AtDial
    ensures CanStep(s, ByB(DialFailed(res)))
    ensures var t := Next(s, ByB(DialFailed(res)));
            && t.b.phase == Gone && !t.b.bound && t.a == s.a
            && t.ba == (if s.b.phase == Live && Sends(s.b, res) && s.up then [SynAck(false)] else [])
            && (t.ba != [] ==>
                  var refusal := ByA(Deliver(SynAck(false), true, true, Ok));
                  && CanStep(t, refusal)
                  && var u := Next(t, refusal);
                     && u.a.phase == Gone && !u.a.bound && u.a.trace == s.a.trace
                     && u.b == t.b && u.ba == [] && u.ab == s.ab)
  {
    ReachableInv(s);
    hide Reachable, Step, Enabled, Inv, Next, CanStep, Sends;
    WhileDialling(s);
    DiallingIsBegun(s);
    NotBoundWhenGone(s);
    DialFails(s, res);
    var t := Next(s, ByB(DialFailed(res)));
    if t.ba != [] { RefusalEnds(t); }
  }

  // --- a CONNECT that cannot be sent

  lemma CallGoes(e: End, res: Result)
    requires e.boot == AtConnect && e.phase == Live && !e.bound && e.trace == []
    ensures Enabled(Initiator, SendConnect(true, res), e)
    ensures var o := Step(Initiator, SendConnect(true, res), e);
            && o.e.trace == [Connect]
            && (res == Ok ==> o.e.phase == Live && o.e.bound && o.e.reader == AwaitReady && o.frames == [Connect])
            && (res != Ok ==> o.e.phase == Gone && !o.e.bound && o.frames == [])
  {
  }

  lemma CallFails(e: End, res: Result)
    requires e.boot == AtConnect && e.phase == Live && !e.bound && e.trace == []
    ensures Enabled(Initiator, SendConnect(false, res), e)
    ensures var o := Step(Initiator, SendConnect(false, res), e);
            o.e.trace == [] && o.e.phase == Gone && !o.e.bound && o.frames == []
  {
  }

  lemma BeforeCall(s: System)
    requires Inv(s) && s.a.boot == AtConnect
    ensures s.a.phase == Live && !s.a.bound && s.a.trace == [] && s.ab == [] && s.ba == []
  {
    hide PipeInv, PipeOf, Scan, EofLast, FinState, TraceState, Pristine, Waiting;
  }

  /**
   The initiator's stream stays, bound and waiting for the answer, exactly when a session was
   there for the CONNECT and took it; otherwise it is gone, and nothing of it is on its way.
   */
  lemma CallIsExact(s: System, session: bool, res: Result)
    requires Reachable(s) && s.a.boot == AtConnect
    ensures var call := ByA(SendConnect(session, res));
            && CanStep(s, call)
            && var t := Next(s, call);
               && (t.a.phase == Live <==> session && res == Ok) && (t.a.phase != Live ==> t.a.phase == Gone)
               && (t.a.bound <==> session && res == Ok) && t.a.trace == (if session then [Connect] else [])
               && t.ab == (if session && res == Ok && s.up then [Connect] else []) && t.b == s.b && t.ba == []
  {
    hide Reachable, Step, Enabled, Inv;
    ReachableInv(s);
    BeforeCall(s);
    if session { CallGoes(s.a, res); } else { CallFails(s.a, res); }
    assert [] + [Connect] == [Connect];
  }

  // --- a CONNECT that is turned down

  /** What both sides look like when a CONNECT is about to arrive. */
  lemma WhileCalling(s: System)
    requires Inv(s) && Connect in s.ab
    ensures s.ab == [Connect] && s.ba == [] && s.up && s.b.phase == Absent && s.b.trace == [] && s.b.hand == None
    ensures !s.b.bound && s.a.hand == None && s.a.phase != Absent && (s.a.bound ==> s.a.phase == Live)
  {
    hide PipeInv, PipeOf, Scan, EofLast, FinState, TraceState, Waiting;
  }

  lemma TurnsDown(e: End, bind: bool, res: Result)
    requires e.phase == Absent && e.hand == None && e.trace == [] && !e.bound
    ensures Enabled(Responder, Deliver(Connect, false, bind, res), e)
    ensures var o := Step(Responder, Deliver(Connect, false, bind, res), e);
            && o.e.phase == Absent && !o.e.bound && o.e.trace == (if bind then [SynAck(false)] else [])
            && o.frames == (if bind && res == Ok then [SynAck(false)] else [])
  {
  }

  lemma TakesUp(e: End, bind: bool, res: Result)
    requires e.phase == Absent && e.hand == None
    ensures Enabled(Responder, Deliver(Connect, true, bind, res), e)
    ensures var o := Step(Responder, Deliver(Connect, true, bind, res), e);
            o.e.phase == Live && o.e.boot == AtDial && o.e.bound == bind && o.e.trace == e.trace && o.frames == []
  {
  }

  /** A CONNECT that is accepted gives a stream to dial, and no answer yet. */
  lemma ConnectIsTakenUp(s: System, bind: bool, res: Result)
    requires Reachable(s) && Connect in s.ab
    ensures var call := ByB(Deliver(Connect, true, bind, res));
            && CanStep(s, call)
            && var t := Next(s, call);
               && t.b.phase == Live && t.b.boot == AtDial && t.b.bound == bind && t.b.trace == []
               && t.a == s.a && t.ab == [] && t.ba == []
  {
    hide Reachable, Step, Enabled, Inv;
    ReachableInv(s);
    WhileCalling(s);
    TakesUp(s.b, bind, res);
  }

  /**
   One that is turned down is answered with a refusal on the session it came in on, and with
   nothing else; no stream is left here, and the refusal, if the session takes it, takes the
   initiator's stream out.
   */
  lemma ConnectIsTurnedDown(s: System, bind: bool, res: Result)
    requires Reachable(s) && Connect in s.ab
    ensures var call := ByB(Deliver(Connect, false, bind, res));
            && CanStep(s, call)
            && var t := Next(s, call);
               && t.b.phase == Absent && !t.b.bound && t.b.trace == (if bind then [SynAck(false)] else [])
               && t.a == s.a && t.ab == [] && t.ba == (if bind && res == Ok then [SynAck(false)] else [])
               && (t.ba != [] ==>
                     var refusal := ByA(Deliver(SynAck(false), true, true, Ok));
                     && CanStep(t, refusal)
                     && var u := Next(t, refusal);
                        && u.a.phase == Gone && !u.a.bound && u.a.trace == s.a.trace
                        && u.b == t.b && u.ba == [] && u.ab == [])
  {
    hide Reachable, Step, Enabled, Inv;
    ReachableInv(s);
    WhileCalling(s);
    TurnsDown(s.b, bind, res);
    var t := Next(s, ByB(Deliver(Connect, false, bind, res)));
    assert [] + [SynAck(false)] == [SynAck(false)];
    if t.ba != [] { RefusalEnds(t); }
  }

  // --- a lost answer

  /** Some run makes the initiator's stream ready. */
  ghost predicate CanBecomeReady(s: System) { exists t: System :: Path(s, t) && t.a.phase == Live && t.a.ready }

  /** The responder has answered, and no SYN_ACK(yes) is on its way to an initiator that waits for it. */
  predicate Unheard(s: System) {
    && (s.b.boot == AtReady || s.b.boot == Booted) && s.b.phase != Absent
    && SynAck(true) !in s.ba && !(s.a.phase == Live && s.a.ready)
  }

  lemma AnswersOnce(act: Action, e: End)
    requires LocalInv(Responder, e) && Enabled(Responder, act, e)
             && (act.Deliver? ==> Expected(Responder, e, act.frame))
    requires e.boot == AtReady || e.boot == Booted
    ensures SynAck(true) !in Step(Responder, act, e).frames
  {
    assert !act.SendConnect? by { hide Scan, EofLast, FinState, TraceState, Pristine, Waiting; }
    assert act.SendSynAck? ==> e.boot == AtSynAck;
    hide Scan, LocalInv, Step, Enabled, Expected;
    if act.Deliver? || act.SendSynAck? || act.DialFailed? {
      EmitsInHandshake(Responder, act, e);
    } else if Step(Responder, act, e).frames != [] {
      EmitsWhenReady(Responder, act, e);
    }
  }

  lemma UnheardStep(s: System, ev: Event)
    requires Inv(s) && Unheard(s) && CanStep(s, ev)
    ensures Unheard(Next(s, ev))
  {
    hide LocalInv, Handshake, PipeInv, PipeOf, Enabled, Step, Expected, Scan;
    match ev
    case ByA(act) =>
      if act.Deliver? { ExpectedByA(s, act); }
      assert act.Deliver? ==> Taken(act) == [act.frame] && s.ba[0] == act.frame;
      NoDial(act, s.a);
      StreamSystem.Opens(Initiator, act, s.a);
      assert forall f <- s.ba[|Taken(act)|..] :: f in s.ba;
    case ByB(act) =>
      if act.Deliver? { ExpectedByB(s, act); }
      StreamSystem.Opens(Responder, act, s.b);
      AnswersOnce(act, s.b);
    case LinkDown =>
  }

  lemma {:induction false} UnheardForGood(s: System, evs: seq<Event>)
    requires Inv(s) && Unheard(s) && Run(s, evs).Some?
    ensures Unheard(Run(s, evs).value)
    decreases |evs|
  {
    hide Inv, CanStep, Next, Unheard;
    if evs != [] {
      UnheardStep(s, evs[0]);
      NextInv(s, evs[0]);
      UnheardForGood(Next(s, evs[0]), evs[1..]);
    }
  }

  lemma UnheardIsNeverReady(s: System)
    requires Inv(s) && Unheard(s)
    ensures !CanBecomeReady(s)
  {
    hide Inv, Run;
    forall t: System | Path(s, t)
      ensures !(t.a.phase == Live && t.a.ready)
    {
      var evs: seq<Event> :| Run(s, evs) == Some(t);
      UnheardForGood(s, evs);
    }
  }

  lemma GoneIsNeverReady(s: System)
    requires Inv(s) && s.a.phase == Gone
    ensures !CanBecomeReady(s)
  {
    assert Run(s, []) == Some(s);
    hide Inv, Run;
    forall t: System | Path(s, t)
      ensures t.a.phase == Gone
    {
      var evs: seq<Event> :| Run(s, evs) == Some(t);
      StaysTornDown(Initiator, s, evs);
    }
  }

  lemma AnswerStep(e: End, res: Result)
    requires e.boot == AtSynAck
    ensures Enabled(Responder, SendSynAck(res), e)
    ensures var o := Step(Responder, SendSynAck(res), e);
            o.e.boot == AtReady && o.e.phase == e.phase && o.frames == Passed(e, SynAck(true), res)
  {
  }

  lemma Hears(e: End)
    requires e.phase == Live && e.hand == None
    ensures Goes(Initiator, e, Deliver(SynAck(true), true, true, Ok), e.(ready := true))
  {
  }

  lemma HeardBecomesReady(s: System)
    requires s.up && s.a.phase == Live && s.a.hand == None && s.ba == [SynAck(true)]
    ensures CanBecomeReady(s)
  {
    PathEmpty(s);
    Hears(s.a);
    assert s.ba == Taken(Deliver(SynAck(true), true, true, Ok)) + [];
    hide Path, Enabled, Step;
    GoesA(s, s, Deliver(SynAck(true), true, true, Ok), s.a.(ready := true), [], []);
    var t := System(s.a.(ready := true), s.b, s.ab, [], true);
    assert Path(s, t) && t.a.phase == Live && t.a.ready;
  }

  lemma AnsweringIsBegun(s: System)
    requires Inv(s) && s.b.boot == AtSynAck
    ensures s.b.phase != Absent
  {
    hide PipeInv, PipeOf, Scan, EofLast, FinState, TraceState, Pristine, Waiting, Handshake;
  }

  lemma Answers(s: System, res: Result)
    requires s.b.boot == AtSynAck && s.ba == []
    ensures CanStep(s, ByB(SendSynAck(res)))
    ensures var t := Next(s, ByB(SendSynAck(res)));
            && t.b.boot == AtReady && t.b.phase == s.b.phase && t.a == s.a && t.up == s.up
            && t.ba == if Sends(s.b, res) && s.up then [SynAck(true)] else []
  {
    AnswerStep(s.b, res);
    hide Step, Enabled, Sends;
    assert [] + [SynAck(true)] == [SynAck(true)] && s.ba + [] == s.ba;
  }

  /**
   The initiator can become ready exactly when the session takes the SYN_ACK, the link is
   up and the initiator still has its stream. A SYN_ACK that fails is only logged: the
   responder goes on, and the initiator waits for good.
   */
  lemma AnswerIsNeeded(s: System, res: Result)
    requires Reachable(s) && s.b.boot == AtSynAck
    ensures CanStep(s, ByB(SendSynAck(res)))
    ensures CanBecomeReady(Next(s, ByB(SendSynAck(res)))) <==> Sends(s.b, res) && s.up && s.a.phase == Live
  {
    ReachableInv(s);
    hide Reachable, Step, Enabled, Inv, CanBecomeReady, CanStep, Next, Sends;
    WhileDialling(s);
    AnsweringIsBegun(s);
    Answers(s, res);
    NextInv(s, ByB(SendSynAck(res)));
    var t := Next(s, ByB(SendSynAck(res)));
    if s.a.phase == Gone {
      GoneIsNeverReady(t);
    } else if Sends(s.b, res) && s.up {
      HeardBecomesReady(t);
    } else {
      UnheardIsNeverReady(t);
    }
  }
}
