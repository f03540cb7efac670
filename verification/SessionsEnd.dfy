/** That every session can end, whatever it is in the middle of, and what the lane counts
    then (frontdoor/session_loop.go:69-97, frontdoor/listener.go:858-884). */
module SessionsEnd {
  import opened Accounting
  import opened GeneralLane
  import opened Session
  import opened SessionInvariant
  import opened SessionProgress
  import opened Sessions

  /** The engine refuses for good, and nothing can be written. */
  const GIVEN_UP := Outcome(true, true, false, false, false, true, true)

  function StepsLeft(s: Session): nat {
    match s.pc
    case Waiting => 2
    case Driving(_, _) => 2
    case Ending => 1
    case Ended => 0
  }

  function AllLeft(ss: seq<Session>): nat { if ss == [] then 0 else StepsLeft(ss[0]) + AllLeft(ss[1..]) }

  lemma {:induction false} LeftPut(ss: seq<Session>, i: nat, s: Session)
    requires i < |ss|
    ensures AllLeft(ss[i := s]) + StepsLeft(ss[i]) == AllLeft(ss) + StepsLeft(s)
    decreases |ss|
  {
    if i > 0 {
      assert ss[i := s][1..] == ss[1..][i - 1 := s];
      LeftPut(ss[1..], i - 1, s);
    } else {
      assert ss[i := s][1..] == ss[1..];
    }
  }

  /** The way out: the client goes, the engine gives up, a panic is recovered, the loop
      returns. */
  function WayOut(s: Session, i: nat): Step
    requires !s.pc.Ended?
  {
    match s.pc
    case Waiting => Disconnect(i)
    case Driving(_, _) => if s.unwinding then Panic(i) else EngineAnswers(i, GIVEN_UP)
    case Ending => CloseSession(i)
  }

  lemma WayOutMoves(sys: System, i: nat)
    requires i < |sys.sessions| && !sys.sessions[i].pc.Ended?
    ensures var t := Next(sys, WayOut(sys.sessions[i], i));
            AllLeft(t.sessions) < AllLeft(sys.sessions) && |t.sessions| == |sys.sessions|
  {
    var s := sys.sessions[i];
    var step := WayOut(s, i);
    assert Possible(s, step) && Enabled(sys, step);
    if s.pc.Driving? && !s.unwinding {
      CallEndsSessionExactly(sys.lane, s, GIVEN_UP);
    }
    var r := Effect(sys.cfg, sys.lane, s, step);
    assert StepsLeft(r.1) < StepsLeft(s);
    LeftPut(sys.sessions, i, r.1);
    assert Next(sys, step) == Put(sys, i, r);
  }

  /** A panic, wherever it falls, ends its session, with nothing more said to the client or
      asked of the engine; and when the loop has returned the session holds nothing. */
  lemma PanicEnds(lane: Lane, s: Session)
    ensures var t := OnPanic(lane, s).1;
            && t.pc.Ending? && t.log == s.log
            && OnClose(lane, t).1.pc.Ended? && OnClose(lane, t).1.log == s.log && Holds(OnClose(lane, t).1) == 0
  {
  }

  predicate AllEnded(sys: System) { forall i :: 0 <= i < |sys.sessions| ==> sys.sessions[i].pc.Ended? }

  lemma {:induction false} Winds(cfg: Config, limit: nat, steps: seq<Step>) returns (all: seq<Step>)
    ensures steps <= all && AllEnded(Run(Start(cfg, limit), all))
    ensures |Run(Start(cfg, limit), all).sessions| == |Run(Start(cfg, limit), steps).sessions|
    decreases AllLeft(Run(Start(cfg, limit), steps).sessions)
  {
    var sys := Run(Start(cfg, limit), steps);
    if AllEnded(sys) {
      all := steps;
    } else {
      var i :| 0 <= i < |sys.sessions| && !sys.sessions[i].pc.Ended?;
      var step := WayOut(sys.sessions[i], i);
      WayOutMoves(sys, i);
      assert (steps + [step])[..|steps|] == steps;
      all := Winds(cfg, limit, steps + [step]);
    }
  }

  /** From every moment of every run every session can end; and the lane then counts what
      leaked on the way, and nothing else. */
  lemma EverySessionCanEnd(cfg: Config, limit: nat, steps: seq<Step>) returns (all: seq<Step>)
    requires ValidConfig(cfg)
    ensures steps <= all && AllEnded(Run(Start(cfg, limit), all))
    ensures |Run(Start(cfg, limit), all).sessions| == |Run(Start(cfg, limit), steps).sessions|
    ensures Run(Start(cfg, limit), all).lane.used == LeakedBy(Start(cfg, limit), all)
  {
    all := Winds(cfg, limit, steps);
    LaneReturnsToZero(cfg, limit, all);
  }
}
