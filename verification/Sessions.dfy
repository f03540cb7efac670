/** Any number of sessions sharing the general lane, interleaved step by step.
    A step that is not enabled leaves the system as it is, so every sequence of
    steps is a run. */
module Sessions {
  import opened GeneralLane
  import opened Accounting
  import opened Session
  import opened SessionLog
  import opened SessionInvariant

  datatype System = System(cfg: Config, lane: Lane, sessions: seq<Session>)

  datatype Step =
    | Open
    | Frame(i: nat, m: Msg, declared: nat, answers: Answers)
    | EngineEmits(i: nat, emission: Emission)
    | AnnouncementPanics(i: nat, emission: Emission)
    | EngineAnswers(i: nat, outcome: Outcome)
    | Disconnect(i: nat)
    | Panic(i: nat)
    | CloseSession(i: nat)

  function Put(sys: System, i: nat, r: (Lane, Session)): System
    requires i < |sys.sessions|
  {
    sys.(lane := r.0, sessions := sys.sessions[i := r.1])
  }

  predicate Possible(s: Session, step: Step)
    requires !step.Open?
  {
    match step
    case Frame(_, m, _, _) => s.pc.Waiting? && Decodable(m)
    case EngineEmits(_, e) => s.pc.Driving? && !s.unwinding && Sized(e)
    case AnnouncementPanics(_, e) => s.pc.Driving? && !s.unwinding && Sized(e)
    case EngineAnswers(_, _) => s.pc.Driving? && !s.unwinding
    case Disconnect(_) => s.pc.Waiting?
    case Panic(_) => s.pc.Waiting? || s.pc.Driving?
    case CloseSession(_) => s.pc.Ending?
  }

  predicate Enabled(sys: System, step: Step) {
    step.Open? || (step.i < |sys.sessions| && Possible(sys.sessions[step.i], step))
  }

  /** What the step does to the lane and to the one session it is about. */
  function Effect(cfg: Config, lane: Lane, s: Session, step: Step): (Lane, Session)
    requires !step.Open? && Possible(s, step)
  {
    match step
    case Frame(_, m, declared, a) => OnFrame(cfg, lane, s, m, declared, a)
    case EngineEmits(_, e) => OnEmit(cfg, lane, s, e)
    case AnnouncementPanics(_, e) => OnAnnouncePanic(cfg, lane, s, e)
    case EngineAnswers(_, o) => OnFinish(lane, s, o)
    case Disconnect(_) => (lane, End(s))
    case Panic(_) => OnPanic(lane, s)
    case CloseSession(_) => OnClose(lane, s)
  }

  function Next(sys: System, step: Step): System {
    if !Enabled(sys, step) then sys
    else if step.Open? then sys.(sessions := sys.sessions + [NEW_SESSION])
    else Put(sys, step.i, Effect(sys.cfg, sys.lane, sys.sessions[step.i], step))
  }

  function Run(sys: System, steps: seq<Step>): System
    decreases |steps|
  {
    if steps == [] then sys else Next(Run(sys, steps[..|steps| - 1]), steps[|steps| - 1])
  }

  function Start(cfg: Config, limit: nat): System {
    System(cfg, Lane(limit, 0), [])
  }

  // ---- The ledger ----------------------------------------------------------------------

  /** What a session holds of the lane: its segment's working set, and its
      running statement's. A stream's account stands in for the segment's. */
  function Holds(s: Session): nat {
    match s.pc
    case Driving(QueryDrive, acct) => s.seg.held + acct.held
    case Driving(_, acct) => acct.held
    case _ => s.seg.held
  }

  function Stake(s: Session): nat { Holds(s) + s.leaked }

  function TotalStake(ss: seq<Session>): nat {
    if ss == [] then 0 else Stake(ss[0]) + TotalStake(ss[1..])
  }

  function TotalLeaked(ss: seq<Session>): nat {
    if ss == [] then 0 else ss[0].leaked + TotalLeaked(ss[1..])
  }

  lemma {:induction false} TotalUpdate(ss: seq<Session>, i: nat, s: Session)
    requires i < |ss|
    ensures TotalStake(ss[i := s]) == TotalStake(ss) - Stake(ss[i]) + Stake(s)
    ensures TotalLeaked(ss[i := s]) == TotalLeaked(ss) - ss[i].leaked + s.leaked
    ensures Stake(ss[i]) <= TotalStake(ss)
    decreases |ss|
  {
    if i > 0 {
      TotalUpdate(ss[1..], i - 1, s);
      assert ss[i := s][1..] == ss[1..][i - 1 := s];
    } else {
      assert ss[i := s][1..] == ss[1..];
    }
  }

  lemma {:induction false} TotalAppend(ss: seq<Session>, s: Session)
    ensures TotalStake(ss + [s]) == TotalStake(ss) + Stake(s)
    ensures TotalLeaked(ss + [s]) == TotalLeaked(ss) + s.leaked
    decreases |ss|
  {
    if ss == [] {
      assert [s][1..] == [] && ss + [s] == [s];
    } else {
      TotalAppend(ss[1..], s);
      assert (ss + [s])[1..] == ss[1..] + [s];
    }
  }

  /** A move in which the lane gains exactly what the session does. */
  ghost predicate Squared(lane: Lane, s: Session, r: (Lane, Session)) {
    && r.0.limit == lane.limit && r.0.used <= lane.limit
    && r.0.used - lane.used == Stake(r.1) - Stake(s)
  }

  lemma ReserveAndCallSquared(cfg: Config, lane: Lane, s: Session, m: Msg, charge: nat, a: Answers)
    requires 0 <= lane.used <= lane.limit && s.pc.Waiting?
    ensures Squared(lane, s, ReserveAndCall(cfg, lane, s, m, charge, a))
  {
    var s2 := if m.Execute? then s.(seg := s.seg.(ran := true)) else s;
    var (lane', seg', ok) := ReserveSegment(cfg, lane, s2.seg);
    assert lane'.limit == lane.limit && lane'.used <= lane.limit;
    assert lane'.used - lane.used == seg'.held - s.seg.held;
  }

  lemma RunExtendedSquared(cfg: Config, lane: Lane, s: Session, m: Msg, declared: nat, a: Answers)
    requires 0 <= lane.used <= lane.limit && s.pc.Waiting? && Extended(m)
    ensures Squared(lane, s, RunExtended(cfg, lane, s, m, declared, a))
  {
    var charge := declared + SegmentDecodedDelta(m);
    if m.Sync? {
      assert Stake(StartDrive(s, m, charge)) == Stake(s);
    } else {
      RunChargedSquared(cfg, lane, s.(seg := AddBytes(s.seg, SegmentDecodedDelta(m))), m, charge, a);
    }
  }

  lemma RunChargedSquared(cfg: Config, lane: Lane, s: Session, m: Msg, charge: nat, a: Answers)
    requires 0 <= lane.used <= lane.limit && s.pc.Waiting?
    ensures Squared(lane, s, RunCharged(cfg, lane, s, m, charge, a))
  {
    if WithinCaps(cfg, s.seg) && !m.Flush? {
      ReserveAndCallSquared(cfg, lane, s, m, charge, a);
    }
  }

  lemma RouteSquared(cfg: Config, lane: Lane, s: Session, m: Msg, declared: nat, a: Answers)
    requires 0 <= lane.used <= lane.limit && s.pc.Waiting?
    ensures Squared(lane, s, Route(cfg, lane, s, m, declared, a))
  {
    var dropped := s.seg.discarding && !m.Sync? && !m.Terminate?;
    var s' := Note(s, Received(m, dropped));
    if !dropped && Extended(m) {
      RunExtendedSquared(cfg, lane, s', m, declared, a);
    }
  }

  lemma FrameSquared(cfg: Config, lane: Lane, s: Session, m: Msg, declared: nat, a: Answers)
    requires 0 <= lane.used <= lane.limit && s.pc.Waiting?
    ensures Squared(lane, s, OnFrame(cfg, lane, s, m, declared, a))
  {
    if declared <= cfg.bodyCap + 4 {
      var adm := AdmitSegmentFrame(cfg, s, m, declared, a);
      assert adm.s.seg.held == s.seg.held && adm.s.leaked == s.leaked;
      if adm.Admit? {
        RouteSquared(cfg, lane, adm.s, m, declared, a);
      }
    }
  }

  /** Answering the client moves nothing between the session and the lane. */
  ghost predicate SameStake(s: Session, s': Session) {
    s'.seg.held == s.seg.held && s'.leaked == s.leaked && !s'.pc.Driving?
  }

  lemma WithheldStake(s: Session, o: Outcome, owns: bool)
    requires s.pc.Waiting?
    ensures SameStake(s, ReportOutputWithheld(s, o, owns))
  {
  }

  lemma FinishStake(s: Session, acct: Account, o: Outcome, collects: bool)
    requires s.pc.Waiting?
    ensures SameStake(s, FinishQuery(s, acct, o))
    ensures SameStake(s, FinishStream(s, acct, o, collects))
    ensures SameStake(s, FinishSync(s, acct, o))
  {
    WithheldStake(s, o, true);
    WithheldStake(s, o, false);
  }

  lemma FinishSquared(lane: Lane, s: Session, o: Outcome)
    requires 0 <= lane.used <= lane.limit && s.pc.Driving? && Stake(s) <= lane.used
    ensures Squared(lane, s, OnFinish(lane, s, o))
  {
    var acct, back := s.pc.acct, Back(s, o);
    match s.pc.drive
    case QueryDrive => FinishStake(back, acct, o, false);
    case ExecuteDrive => FinishStake(back.(seg := back.seg.(held := acct.held)), acct, o, false);
    case FlushDrive => FinishStake(back.(seg := back.seg.(held := acct.held)), acct, o, true);
    case SyncDrive => FinishStake(back.(seg := NO_SEGMENT), acct, o, false);
  }

  lemma AnnounceSquared(cfg: Config, lane: Lane, s: Session, e: Emission)
    requires 0 <= lane.used <= lane.limit && s.pc.Driving?
    ensures Squared(lane, s, OnAnnouncePanic(cfg, lane, s, e))
  {
  }

  lemma EffectSquared(cfg: Config, lane: Lane, s: Session, step: Step)
    requires !step.Open? && 0 <= lane.used <= lane.limit && Stake(s) <= lane.used
    requires Possible(s, step) && SessionOk(cfg, lane.limit, s)
    ensures Squared(lane, s, Effect(cfg, lane, s, step))
  {
    match step
    case Frame(_, m, declared, a) => FrameSquared(cfg, lane, s, m, declared, a);
    case EngineEmits(_, e) => HeldGrows(cfg.lim, lane, s.pc.acct, e);
    case AnnouncementPanics(_, e) => AnnounceSquared(cfg, lane, s, e);
    case EngineAnswers(_, o) => FinishSquared(lane, s, o);
    case Disconnect(_) =>
    case Panic(_) =>
    case CloseSession(_) =>
  }

  lemma EffectKept(cfg: Config, lane: Lane, s: Session, step: Step)
    requires ValidConfig(cfg) && !step.Open? && Possible(s, step) && SessionOk(cfg, lane.limit, s)
    ensures SessionOk(cfg, lane.limit, Effect(cfg, lane, s, step).1)
  {
    match step
    case Frame(_, m, declared, a) => FrameKept(cfg, lane, s, m, declared, a);
    case EngineEmits(_, e) => EmitKept(cfg, lane, s, e);
    case AnnouncementPanics(_, e) => AnnounceKept(cfg, lane, s, e);
    case EngineAnswers(_, o) => FinishKept(cfg, lane, s, o);
    case Disconnect(_) =>
    case Panic(_) =>
    case CloseSession(_) =>
  }

  ghost predicate Inv(sys: System) {
    && ValidConfig(sys.cfg)
    && 0 <= sys.lane.used <= sys.lane.limit
    && sys.lane.used == TotalStake(sys.sessions)
    && AllOk(sys.cfg, sys.lane.limit, sys.sessions)
  }

  ghost predicate AllOk(cfg: Config, limit: nat, ss: seq<Session>) {
    forall i :: 0 <= i < |ss| ==> SessionOk(cfg, limit, ss[i])
  }

  lemma NextKeepsInv(sys: System, step: Step)
    requires Inv(sys)
    ensures Inv(Next(sys, step)) && Next(sys, step).cfg == sys.cfg && Next(sys, step).lane.limit == sys.lane.limit
  {
    if Enabled(sys, step) {
      if step.Open? {
        OpenKeepsInv(sys);
        assert Next(sys, step) == sys.(sessions := sys.sessions + [NEW_SESSION]);
      } else {
        SessionStepKeepsInv(sys, step);
      }
    }
  }

  lemma OpenKeepsInv(sys: System)
    requires Inv(sys)
    ensures Inv(sys.(sessions := sys.sessions + [NEW_SESSION]))
  {
    NewSessionOk(sys.cfg, sys.lane.limit);
    OneMoreKeepsInv(sys, NEW_SESSION);
  }

  lemma OneMoreKeepsInv(sys: System, s: Session)
    requires Inv(sys) && SessionOk(sys.cfg, sys.lane.limit, s) && Stake(s) == 0
    ensures Inv(sys.(sessions := sys.sessions + [s]))
  {
    TotalAppend(sys.sessions, s);
    OneMoreOk(sys.cfg, sys.lane.limit, sys.sessions, s);
  }

  lemma OneMoreOk(cfg: Config, limit: nat, ss: seq<Session>, s: Session)
    requires SessionOk(cfg, limit, s) && AllOk(cfg, limit, ss)
    ensures AllOk(cfg, limit, ss + [s])
  {
    assert forall i :: 0 <= i < |ss + [s]| ==> (ss + [s])[i] == if i < |ss| then ss[i] else s;
  }

  lemma NewSessionOk(cfg: Config, limit: nat)
    ensures SessionOk(cfg, limit, NEW_SESSION) && Stake(NEW_SESSION) == 0
  {
  }

  lemma SessionStepKeepsInv(sys: System, step: Step)
    requires Inv(sys) && Enabled(sys, step) && !step.Open?
    ensures Inv(Next(sys, step)) && Next(sys, step).cfg == sys.cfg && Next(sys, step).lane.limit == sys.lane.limit
  {
    EffectSound(sys, step);
    var r := Effect(sys.cfg, sys.lane, sys.sessions[step.i], step);
    PutKeepsInv(sys, step.i, r);
    assert Next(sys, step) == Put(sys, step.i, r);
  }

  lemma EffectSound(sys: System, step: Step)
    requires Inv(sys) && Enabled(sys, step) && !step.Open?
    ensures var s := sys.sessions[step.i];
            var r := Effect(sys.cfg, sys.lane, s, step);
            Squared(sys.lane, s, r) && SessionOk(sys.cfg, sys.lane.limit, r.1)
  {
    var s := sys.sessions[step.i];
    TotalUpdate(sys.sessions, step.i, s);
    EffectSquared(sys.cfg, sys.lane, s, step);
    EffectKept(sys.cfg, sys.lane, s, step);
  }

  lemma PutKeepsInv(sys: System, i: nat, r: (Lane, Session))
    requires Inv(sys) && i < |sys.sessions|
    requires Squared(sys.lane, sys.sessions[i], r) && SessionOk(sys.cfg, sys.lane.limit, r.1)
    ensures Inv(Put(sys, i, r)) && Put(sys, i, r).cfg == sys.cfg && Put(sys, i, r).lane.limit == sys.lane.limit
  {
    TotalUpdate(sys.sessions, i, r.1);
  }

  /** Over every interleaving of any number of sessions: the lane's `used` is
      exactly what live statements and segments hold plus what was leaked, it
      never exceeds the limit, and every session keeps its own invariant. */
  lemma {:induction false} LaneLedger(cfg: Config, limit: nat, steps: seq<Step>)
    requires ValidConfig(cfg)
    ensures Inv(Run(Start(cfg, limit), steps))
    ensures Run(Start(cfg, limit), steps).cfg == cfg && Run(Start(cfg, limit), steps).lane.limit == limit
    decreases |steps|
  {
    if steps != [] {
      LaneLedger(cfg, limit, steps[..|steps| - 1]);
      NextKeepsInv(Run(Start(cfg, limit), steps[..|steps| - 1]), steps[|steps| - 1]);
    }
  }

  /** What one step gives back to the lane. */
  function Released(s: Session, step: Step): nat
    requires !step.Open?
  {
    match step
    case EngineAnswers(_, _) =>
      if s.pc.Driving? && (s.pc.drive.QueryDrive? || s.pc.drive.SyncDrive?) then s.pc.acct.held else 0
    case Panic(_) => if s.pc.Driving? && s.pc.drive.QueryDrive? then s.pc.acct.held else 0
    case CloseSession(_) => s.seg.held
    case _ => 0
  }

  /** The clamp at zero is never reached: every release in every run is backed by
      the lane's own count, and lowers it by exactly its amount. */
  lemma ReleasesAreBacked(cfg: Config, limit: nat, steps: seq<Step>, step: Step)
    requires ValidConfig(cfg)
    ensures var sys := Run(Start(cfg, limit), steps);
            !step.Open? && Enabled(sys, step) ==> Released(sys.sessions[step.i], step) <= sys.lane.used
  {
    LaneLedger(cfg, limit, steps);
    BackedAt(Run(Start(cfg, limit), steps), step);
  }

  lemma BackedAt(sys: System, step: Step)
    requires Inv(sys)
    ensures !step.Open? && Enabled(sys, step) ==> Released(sys.sessions[step.i], step) <= sys.lane.used
  {
    if !step.Open? && Enabled(sys, step) {
      var s := sys.sessions[step.i];
      TotalUpdate(sys.sessions, step.i, s);
      assert Released(s, step) <= Stake(s);
    }
  }

  // ---- Leaks -----------------------------------------------------------------------------

  /** The two moves that leak: a panic unwinding a Sync whose account was topped up
      beyond what its segment held, and, on any drive, a panic of the callback that
      announces a grant for a large frame. */
  predicate Leaks(sys: System, step: Step) {
    && Enabled(sys, step)
    && match step
       case Panic(i) => LosesTopUp(sys.sessions[i])
       case AnnouncementPanics(i, e) =>
         && AsksLane(sys.cfg.lim, sys.sessions[i].pc.acct, e)
         && sys.lane.used + (e.size - sys.sessions[i].pc.acct.held) <= sys.lane.limit
       case _ => false
  }

  predicate LosesTopUp(s: Session) {
    s.pc.Driving? && s.pc.drive.SyncDrive? && s.pc.acct.held > s.seg.held
  }

  /** How much: the top-up the Sync had, or the grant that was announced. */
  function LeakOf(sys: System, step: Step): nat {
    if !Leaks(sys, step) then 0
    else if step.Panic? then sys.sessions[step.i].pc.acct.held - sys.sessions[step.i].seg.held
    else step.emission.size - sys.sessions[step.i].pc.acct.held
  }

  /** A step grows the leak if and only if it is one of those moves, and by exactly
      what the move had not written back. */
  lemma LeaksExactly(sys: System, step: Step)
    ensures TotalLeaked(Next(sys, step).sessions) == TotalLeaked(sys.sessions) + LeakOf(sys, step)
    ensures LeakOf(sys, step) > 0 <==> Leaks(sys, step)
  {
    if Enabled(sys, step) {
      if step.Open? {
        TotalAppend(sys.sessions, NEW_SESSION);
      } else {
        var r := Effect(sys.cfg, sys.lane, sys.sessions[step.i], step);
        TotalUpdate(sys.sessions, step.i, r.1);
        EffectLeaks(sys, step);
      }
    }
  }

  lemma EffectLeaks(sys: System, step: Step)
    requires Enabled(sys, step) && !step.Open?
    ensures var s := sys.sessions[step.i];
            Effect(sys.cfg, sys.lane, s, step).1.leaked == s.leaked + LeakOf(sys, step)
  {
    var s := sys.sessions[step.i];
    match step
    case Frame(_, m, declared, a) => FrameLeaksNothing(sys.cfg, sys.lane, s, m, declared, a);
    case EngineAnswers(_, o) => FinishLeaksNothing(sys.lane, s, o);
    case _ =>
  }

  lemma RouteLeaksNothing(cfg: Config, lane: Lane, s: Session, m: Msg, declared: nat, a: Answers)
    ensures Route(cfg, lane, s, m, declared, a).1.leaked == s.leaked
  {
    var s' := Note(s, Received(m, s.seg.discarding && !m.Sync? && !m.Terminate?));
    if Extended(m) && !m.Sync? {
      var charged := s'.(seg := AddBytes(s'.seg, SegmentDecodedDelta(m)));
      var charge := declared + SegmentDecodedDelta(m);
      assert RunCharged(cfg, lane, charged, m, charge, a).1.leaked == s.leaked;
    }
  }

  lemma FrameLeaksNothing(cfg: Config, lane: Lane, s: Session, m: Msg, declared: nat, a: Answers)
    ensures OnFrame(cfg, lane, s, m, declared, a).1.leaked == s.leaked
  {
    if declared <= cfg.bodyCap + 4 {
      var adm := AdmitSegmentFrame(cfg, s, m, declared, a);
      assert adm.s.leaked == s.leaked;
      if adm.Admit? {
        RouteLeaksNothing(cfg, lane, adm.s, m, declared, a);
      }
    }
  }

  lemma FinishLeaksNothing(lane: Lane, s: Session, o: Outcome)
    requires s.pc.Driving?
    ensures OnFinish(lane, s, o).1.leaked == s.leaked
  {
    var acct, back := s.pc.acct, Back(s, o);
    FinishStake(back, acct, o, false);
    FinishStake(back.(seg := back.seg.(held := acct.held)), acct, o, false);
    FinishStake(back.(seg := back.seg.(held := acct.held)), acct, o, true);
    FinishStake(back.(seg := NO_SEGMENT), acct, o, false);
  }

  /** No step of the run was one of those moves. */
  predicate LeakFree(sys: System, steps: seq<Step>)
    decreases |steps|
  {
    steps == [] ||
    var n := |steps| - 1;
    LeakFree(sys, steps[..n]) && !Leaks(Run(sys, steps[..n]), steps[n])
  }

  /** What the run's leaking moves had not written back, in all. */
  function LeakedBy(sys: System, steps: seq<Step>): nat
    decreases |steps|
  {
    if steps == [] then 0
    else
      var n := |steps| - 1;
      LeakedBy(sys, steps[..n]) + LeakOf(Run(sys, steps[..n]), steps[n])
  }

  lemma {:induction false} NoLeakMeansNone(cfg: Config, limit: nat, steps: seq<Step>)
    ensures var sys := Run(Start(cfg, limit), steps);
            && TotalLeaked(sys.sessions) == LeakedBy(Start(cfg, limit), steps)
            && (TotalLeaked(sys.sessions) == 0 <==> LeakFree(Start(cfg, limit), steps))
    decreases |steps|
  {
    var sys := Start(cfg, limit);
    if steps != [] {
      var n := |steps| - 1;
      NoLeakMeansNone(cfg, limit, steps[..n]);
      LeaksExactly(Run(sys, steps[..n]), steps[n]);
    }
  }

  lemma {:induction false} AllEndedHoldNothing(cfg: Config, limit: nat, ss: seq<Session>)
    requires forall i :: 0 <= i < |ss| ==> ss[i].pc.Ended? && SessionOk(cfg, limit, ss[i])
    ensures TotalStake(ss) == TotalLeaked(ss)
    decreases |ss|
  {
    if ss != [] {
      AllEndedHoldNothing(cfg, limit, ss[1..]);
    }
  }

  /** Once every session has ended, the lane counts exactly what the leaking moves had
      not written back; it is at zero exactly when there were none. */
  lemma LaneReturnsToZero(cfg: Config, limit: nat, steps: seq<Step>)
    requires ValidConfig(cfg)
    ensures var sys := Run(Start(cfg, limit), steps);
            (forall i :: 0 <= i < |sys.sessions| ==> sys.sessions[i].pc.Ended?) ==>
              && sys.lane.used == LeakedBy(Start(cfg, limit), steps)
              && (sys.lane.used == 0 <==> LeakFree(Start(cfg, limit), steps))
  {
    LaneLedger(cfg, limit, steps);
    NoLeakMeansNone(cfg, limit, steps);
    var sys := Run(Start(cfg, limit), steps);
    if forall i :: 0 <= i < |sys.sessions| ==> sys.sessions[i].pc.Ended? {
      AllEndedHoldNothing(cfg, limit, sys.sessions);
    }
  }

  const NO_ANSWERS := Answers(false, false, Accepted, true, false)

  /** The first move exists: a Parse reserves, the Sync behind it is handed a frame
      larger than the reservation, and its call panics. Every session ends and
      the lane still counts the top-up. */
  lemma LeakWitness(cfg: Config, limit: nat) returns (steps: seq<Step>)
    requires ValidConfig(cfg) && 8 <= cfg.lim.watermark < limit && cfg.lim.watermark < cfg.lim.outputCap
    requires 1 <= cfg.messageCap && 4 + 32 <= cfg.byteCap
    ensures var sys := Run(Start(cfg, limit), steps);
            |sys.sessions| == 1 && sys.sessions[0].pc.Ended? && sys.lane.used == 1
  {
    var parse := Frame(0, Parse(0), 4, NO_ANSWERS);
    var sync := Frame(0, Sync, 4, NO_ANSWERS);
    var large := EngineEmits(0, Emission(cfg.lim.watermark + 1, false, true, false, false));
    var sys := Start(cfg, limit);
    var begun := System(cfg, Lane(limit, 0), [NEW_SESSION]);
    var s1 := ParsedOne(cfg, limit);
    var parsed := System(cfg, Lane(limit, cfg.lim.watermark), [s1]);
    var closed := SyncLeaks(parsed, sync, large);
    assert Next(begun, parse) == parsed;
    assert Next(sys, Open) == begun;
    steps := [Open, parse] + [sync, large] + [Panic(0), CloseSession(0)];
    RunTwo(sys, [], Open, parse);
    RunTwo(sys, [Open, parse], sync, large);
    RunTwo(sys, [Open, parse] + [sync, large], Panic(0), CloseSession(0));
    assert [] + [Open, parse] == [Open, parse];
  }

  lemma RunTwo(sys: System, steps: seq<Step>, a: Step, b: Step)
    ensures Run(sys, steps + [a, b]) == Next(Next(Run(sys, steps), a), b)
  {
    var n := |steps|;
    assert (steps + [a, b])[..n + 1] == steps + [a];
    assert (steps + [a])[..n] == steps;
  }

  lemma SyncLeaks(parsed: System, sync: Step, large: Step) returns (closed: System)
    requires |parsed.sessions| == 1 && 8 <= parsed.lane.used < parsed.lane.limit
    requires var s := parsed.sessions[0];
             s.pc.Waiting? && s.seg.held == parsed.lane.used && !s.seg.discarding && s.leaked == 0 && !s.unwinding
    requires parsed.lane.used < parsed.cfg.lim.outputCap
    requires sync == Frame(0, Sync, 4, NO_ANSWERS)
    requires large == EngineEmits(0, Emission(parsed.lane.used + 1, false, true, false, false))
    ensures closed == Next(Next(Next(Next(parsed, sync), large), Panic(0)), CloseSession(0))
    ensures |closed.sessions| == 1 && closed.sessions[0].pc.Ended? && closed.lane.used == 1
  {
    var s1 := parsed.sessions[0];
    var s2 := StartDrive(Note(s1, Received(Sync, false)), Sync, 4);
    var synced := parsed.(sessions := [s2]);
    assert Next(parsed, sync) == synced;
    var emitted := Next(synced, large);
    assert emitted.lane.used == parsed.lane.used + 1 && emitted.sessions[0].seg == s1.seg;
    assert emitted.sessions[0].pc.Driving? && emitted.sessions[0].pc.drive.SyncDrive?;
    var panicked := Next(emitted, Panic(0));
    assert panicked.lane == emitted.lane && panicked.sessions[0].pc.Ending? && panicked.sessions[0].seg == s1.seg;
    closed := Next(panicked, CloseSession(0));
  }

  /** So does the second, on an ordinary query: a frame larger than its working set is
      granted the difference, the callback that announces it panics, and the session
      ends with the lane still counting it. */
  lemma QueryLeakWitness(cfg: Config, limit: nat) returns (steps: seq<Step>)
    requires ValidConfig(cfg) && 8 <= cfg.lim.watermark < limit && cfg.lim.watermark < cfg.lim.outputCap
    ensures var sys := Run(Start(cfg, limit), steps);
            |sys.sessions| == 1 && sys.sessions[0].pc.Ended? && sys.lane.used == 1
  {
    var query := Frame(0, Query, 4, NO_ANSWERS);
    var large := Emission(cfg.lim.watermark + 1, false, true, false, false);
    var sys := Start(cfg, limit);
    var begun := System(cfg, Lane(limit, 0), [NEW_SESSION]);
    assert Next(sys, Open) == begun;
    var running := Asked(begun, query);
    var closed := QueryLeaks(running, large);
    steps := [Open, query] + [AnnouncementPanics(0, large), Panic(0)] + [CloseSession(0)];
    RunTwo(sys, [], Open, query);
    RunTwo(sys, [Open, query], AnnouncementPanics(0, large), Panic(0));
    assert [] + [Open, query] == [Open, query];
    assert steps[..4] == [Open, query] + [AnnouncementPanics(0, large), Panic(0)];
  }

  lemma Asked(begun: System, query: Step) returns (running: System)
    requires begun.sessions == [NEW_SESSION] && query == Frame(0, Query, 4, NO_ANSWERS)
    requires begun.lane.used == 0 && begun.cfg.lim.watermark <= begun.lane.limit
    ensures running == Next(begun, query) && |running.sessions| == 1 && running.cfg == begun.cfg
    ensures running.lane == begun.lane.(used := begun.cfg.lim.watermark)
    ensures var s := running.sessions[0];
            s.pc == Driving(QueryDrive, Opened(begun.cfg.lim.watermark)) && s.seg == NO_SEGMENT
            && s.leaked == 0 && !s.unwinding
  {
    var s' := Note(NEW_SESSION, Received(Query, false));
    running := Next(begun, query);
    assert Effect(begun.cfg, begun.lane, NEW_SESSION, query) == StartQuery(begun.cfg, begun.lane, s', 4, NO_ANSWERS);
  }

  lemma QueryLeaks(running: System, large: Emission) returns (closed: System)
    requires |running.sessions| == 1 && 8 <= running.lane.used < running.lane.limit
    requires var s := running.sessions[0];
             && s.pc == Driving(QueryDrive, Opened(running.lane.used)) && s.seg == NO_SEGMENT
             && s.leaked == 0 && !s.unwinding
    requires running.lane.used < running.cfg.lim.outputCap
    requires large == Emission(running.lane.used + 1, false, true, false, false)
    ensures closed == Next(Next(Next(running, AnnouncementPanics(0, large)), Panic(0)), CloseSession(0))
    ensures |closed.sessions| == 1 && closed.sessions[0].pc.Ended? && closed.lane.used == 1
  {
    var announced := Next(running, AnnouncementPanics(0, large));
    assert announced.lane.used == running.lane.used + 1;
    assert announced.sessions[0].pc.Driving? && announced.sessions[0].pc.acct.held == running.lane.used;
    var panicked := Next(announced, Panic(0));
    assert panicked.lane.used == 1 && panicked.sessions[0].pc.Ending? && panicked.sessions[0].seg == NO_SEGMENT;
    closed := Next(panicked, CloseSession(0));
  }

  function ParsedLog(): Log {
    Then(Then(Then(Nothing, Received(Parse(0), false)), Engine(Parse(0), 36)), Answered(Parse(0), false, false))
  }

  lemma ParsedOne(cfg: Config, limit: nat) returns (s: Session)
    requires cfg.lim.watermark <= limit && 1 <= cfg.messageCap && 4 + 32 <= cfg.byteCap
    ensures OnFrame(cfg, Lane(limit, 0), NEW_SESSION, Parse(0), 4, NO_ANSWERS) == (Lane(limit, cfg.lim.watermark), s)
    ensures s.pc.Waiting? && s.seg.held == cfg.lim.watermark && !s.seg.discarding && s.leaked == 0
    ensures s.log == ParsedLog() && !s.unwinding
  {
    var seg := Segment(false, cfg.lim.watermark, 1, 36, false);
    s := NEW_SESSION.(seg := seg, log := ParsedLog());
    var admitted := NEW_SESSION.(seg := NO_SEGMENT.(msgs := 1, bytes := 4));
    assert AdmitSegmentFrame(cfg, NEW_SESSION, Parse(0), 4, NO_ANSWERS) == Admit(admitted);
  }

  // ---- Who gets a working set ---------------------------------------------------------------

  /** The session's next Query reaches the engine. */
  predicate QueryRuns(sys: System, i: nat, declared: nat, a: Answers)
    requires i < |sys.sessions|
  {
    Next(sys, Frame(i, Query, declared, a)).sessions[i].pc.Driving?
  }

  predicate MayAsk(sys: System, i: nat, declared: nat, a: Answers) {
    && i < |sys.sessions| && sys.sessions[i].pc.Waiting? && !sys.sessions[i].seg.discarding
    && declared <= sys.cfg.bodyCap + 4 && !a.readFails
  }

  /** In every run, a Query that may be asked runs exactly when what all sessions hold,
      the asking one's own segment included, leaves room for one working set. */
  lemma QueryRunsExactly(cfg: Config, limit: nat, steps: seq<Step>, i: nat, declared: nat, a: Answers)
    requires ValidConfig(cfg) && MayAsk(Run(Start(cfg, limit), steps), i, declared, a)
    ensures var sys := Run(Start(cfg, limit), steps);
            QueryRuns(sys, i, declared, a) <==> TotalStake(sys.sessions) + WorkingSet(cfg, sys.lane) <= limit
  {
    LaneLedger(cfg, limit, steps);
    var sys := Run(Start(cfg, limit), steps);
    AskedQuery(sys, i, declared, a);
  }

  lemma AskedQuery(sys: System, i: nat, declared: nat, a: Answers)
    requires MayAsk(sys, i, declared, a)
    ensures QueryRuns(sys, i, declared, a) <==> Reserve(sys.lane, WorkingSet(sys.cfg, sys.lane)).1
  {
    var s := sys.sessions[i];
    var s' := Note(s, Received(Query, false));
    assert Effect(sys.cfg, sys.lane, s, Frame(i, Query, declared, a)) == StartQuery(sys.cfg, sys.lane, s', declared, a);
  }

  function Busy(s: Session): nat { if Stake(s) > 0 then 1 else 0 }

  /** How many sessions hold something. */
  function BusyCount(ss: seq<Session>): nat {
    if ss == [] then 0 else Busy(ss[0]) + BusyCount(ss[1..])
  }

  lemma {:induction false} StakeBounded(ss: seq<Session>, each: nat)
    requires forall j :: 0 <= j < |ss| ==> Stake(ss[j]) <= each
    ensures TotalStake(ss) <= BusyCount(ss) * each
    decreases |ss|
  {
    if ss != [] {
      StakeBounded(ss[1..], each);
      OneMoreShare(BusyCount(ss[1..]), each);
    }
  }

  /** What the floor buys, exactly. On a lane that passed validation, in every run, a
      Query that may be asked runs if and only if the sessions hold no more than the
      lane less one watermark; and that is so whenever fewer than the session cap
      hold anything and none holds more than one watermark. */
  lemma FloorAdmitsEverySession(cfg: Config, sessionCap: int, limit: nat, steps: seq<Step>,
                                i: nat, declared: nat, a: Answers)
    requires ValidConfig(cfg) && cfg.lim.watermark == PENDING_OUTPUT_WATERMARK && ValidGeneralLane(limit, sessionCap)
    requires MayAsk(Run(Start(cfg, limit), steps), i, declared, a)
    ensures var sys := Run(Start(cfg, limit), steps);
            && (QueryRuns(sys, i, declared, a) <==> TotalStake(sys.sessions) <= limit - PENDING_OUTPUT_WATERMARK)
            && (BusyCount(sys.sessions) < EffectiveSessionCap(sessionCap)
                && (forall j :: 0 <= j < |sys.sessions| ==> Stake(sys.sessions[j]) <= PENDING_OUTPUT_WATERMARK)
                ==> QueryRuns(sys, i, declared, a))
  {
    var sys := Run(Start(cfg, limit), steps);
    var cap, w := EffectiveSessionCap(sessionCap), PENDING_OUTPUT_WATERMARK;
    LaneLedger(cfg, limit, steps);
    QueryRunsExactly(cfg, limit, steps, i, declared, a);
    assert cap >= 1 && cap * w <= limit;
    OneWatermark(cap, w);
    if BusyCount(sys.sessions) < cap && forall j :: 0 <= j < |sys.sessions| ==> Stake(sys.sessions[j]) <= w {
      StakeBounded(sys.sessions, w);
      FitsUnder(BusyCount(sys.sessions), cap, w);
    }
  }

  lemma OneMoreShare(n: nat, each: nat)
    ensures (n + 1) * each == n * each + each
  {
  }

  lemma OneWatermark(cap: int, w: nat)
    requires cap >= 1
    ensures w <= cap * w
  {
  }

  lemma FitsUnder(n: nat, cap: int, w: nat)
    requires n < cap
    ensures n * w + w <= cap * w
  {
    assert (n + 1) * w <= cap * w;
  }

  /** One session can need two working sets: on a lane at the floor for one session, a
      Parse takes it all, and the same session's Query is answered with readiness
      without reaching the engine. */
  lemma TwoWorkingSetsWitness(cfg: Config) returns (steps: seq<Step>)
    requires ValidConfig(cfg) && cfg.lim.watermark == PENDING_OUTPUT_WATERMARK
    requires 1 <= cfg.messageCap && 4 + 32 <= cfg.byteCap
    ensures ValidGeneralLane(PENDING_OUTPUT_WATERMARK, 1)
    ensures var sys := Run(Start(cfg, PENDING_OUTPUT_WATERMARK), steps);
            && |sys.sessions| == 1 && sys.sessions[0].pc.Waiting?
            && sys.sessions[0].log ==
                 Then(Then(Then(Then(ParsedLog(), Received(Query, false)), ErrorSent), StatusRead), Ready)
  {
    var w := PENDING_OUTPUT_WATERMARK;
    var parse, query := Frame(0, Parse(0), 4, NO_ANSWERS), Frame(0, Query, 4, NO_ANSWERS);
    var s1 := ParsedOne(cfg, w);
    var begun, parsed := System(cfg, Lane(w, 0), [NEW_SESSION]), System(cfg, Lane(w, w), [s1]);
    assert Next(Start(cfg, w), Open) == begun;
    assert Next(begun, parse) == parsed;
    steps := [Open, parse, query];
    RunTwo(Start(cfg, w), [], Open, parse);
    assert [] + [Open, parse] == [Open, parse];
    assert steps[..2] == [Open, parse];
    QueryRefused(cfg, parsed, query);
  }

  lemma QueryRefused(cfg: Config, parsed: System, query: Step)
    requires parsed.cfg == cfg && |parsed.sessions| == 1 && parsed.lane.used == parsed.lane.limit == cfg.lim.watermark
    requires cfg.lim.watermark > 0 && query == Frame(0, Query, 4, NO_ANSWERS)
    requires parsed.sessions[0].pc.Waiting? && !parsed.sessions[0].seg.discarding
    ensures var t := Next(parsed, query);
            && |t.sessions| == 1 && t.sessions[0].pc.Waiting?
            && t.sessions[0].log ==
                 Then(Then(Then(Then(parsed.sessions[0].log, Received(Query, false)), ErrorSent), StatusRead), Ready)
  {
    var s' := Note(parsed.sessions[0], Received(Query, false));
    assert Effect(cfg, parsed.lane, parsed.sessions[0], query) == StartQuery(cfg, parsed.lane, s', 4, NO_ANSWERS);
  }

  /** A session reaches a drive whose pending output is not reserved: a Flush on a
      segment that holds nothing, then a frame of 100 bytes and one of 8. */
  lemma UncoveredRun(cfg: Config, limit: nat) returns (steps: seq<Step>)
    requires ValidConfig(cfg) && 108 < cfg.lim.watermark && 108 <= cfg.lim.outputCap && 100 <= limit
    requires 1 <= cfg.messageCap && 4 <= cfg.byteCap
    ensures var sys := Run(Start(cfg, limit), steps);
            && |sys.sessions| == 1 && sys.sessions[0].pc.Driving?
            && sys.sessions[0].pc.acct.pending == 108 && sys.sessions[0].pc.acct.held == 100
  {
    var flush := Frame(0, Flush, 4, NO_ANSWERS);
    var first := EngineEmits(0, Emission(100, false, true, false, false));
    var second := EngineEmits(0, Emission(8, false, true, false, false));
    var begun := System(cfg, Lane(limit, 0), [NEW_SESSION]);
    var s1 := FlushedOne(cfg, limit);
    var flushed := System(cfg, Lane(limit, 0), [s1]);
    assert Next(Start(cfg, limit), Open) == begun;
    assert Next(begun, flush) == flushed;
    RunTwo(Start(cfg, limit), [], Open, flush);
    RunTwo(Start(cfg, limit), [Open, flush], first, second);
    assert [] + [Open, flush] == [Open, flush];
    TwoFrames(flushed, first, second);
    steps := [Open, flush] + [first, second];
  }

  lemma FlushedOne(cfg: Config, limit: nat) returns (s: Session)
    requires 1 <= cfg.messageCap && 4 <= cfg.byteCap
    ensures OnFrame(cfg, Lane(limit, 0), NEW_SESSION, Flush, 4, NO_ANSWERS) == (Lane(limit, 0), s)
    ensures s.pc == Driving(FlushDrive, Opened(0)) && !s.unwinding
  {
    var admitted := NEW_SESSION.(seg := NO_SEGMENT.(msgs := 1, bytes := 4));
    assert AdmitSegmentFrame(cfg, NEW_SESSION, Flush, 4, NO_ANSWERS) == Admit(admitted);
    s := StartDrive(Note(admitted, Received(Flush, false)), Flush, 4);
  }

  lemma TwoFrames(sys: System, first: Step, second: Step)
    requires |sys.sessions| == 1 && sys.sessions[0].pc == Driving(FlushDrive, Opened(0)) && !sys.sessions[0].unwinding
    requires sys.lane.used == 0 && 100 <= sys.lane.limit && 108 < sys.cfg.lim.watermark && 108 <= sys.cfg.lim.outputCap
    requires first == EngineEmits(0, Emission(100, false, true, false, false))
    requires second == EngineEmits(0, Emission(8, false, true, false, false))
    ensures var t := Next(Next(sys, first), second);
            && |t.sessions| == 1 && t.sessions[0].pc.Driving?
            && t.sessions[0].pc.acct.pending == 108 && t.sessions[0].pc.acct.held == 100
  {
    var one := Emit(sys.cfg.lim, sys.lane, Opened(0), first.emission);
    assert one.1.pending == 100 && one.1.held == 100 && one.1.produced == 100;
    var t := Next(sys, first);
    assert t.sessions[0].pc.acct == one.1 && t.lane == one.0;
  }

  // ---- What each session's log says, in every run ---------------------------------------

  ghost predicate Reachable(cfg: Config, limit: nat, s: Session) {
    exists steps: seq<Step> :: s in Run(Start(cfg, limit), steps).sessions
  }

  lemma ReachableOk(cfg: Config, limit: nat, s: Session)
    requires ValidConfig(cfg) && Reachable(cfg, limit, s)
    ensures SessionOk(cfg, limit, s)
  {
    var steps: seq<Step> :| s in Run(Start(cfg, limit), steps).sessions;
    LaneLedger(cfg, limit, steps);
  }

  /** In every run, at every moment of every session: readiness never outnumbers
      what was asked with Query, FunctionCall and Sync; and whenever the loop is
      waiting, the last frame has had exactly the readiness it is owed. */
  lemma ReadinessInEveryRun(cfg: Config, limit: nat, s: Session, p: Log)
    requires ValidConfig(cfg) && Reachable(cfg, limit, s) && IsPrefix(p, s.log)
    ensures Readies(p) <= Owed(p)
    ensures CyclesOk(s.log)
    ensures s.pc.Waiting? ==> Settled(s.log)
  {
    ReachableOk(cfg, limit, s);
    ReadyNeverOutnumbers(s.log, p);
  }

  /** In every run, at every moment: readiness without an error of the front door's own
      stands for a frame the engine ran without failing, everything it emitted passed
      on. A Query that ends in plain success has lost nothing. */
  lemma SuccessInEveryRun(cfg: Config, limit: nat, s: Session, b: Log)
    requires ValidConfig(cfg) && Reachable(cfg, limit, s) && IsPrefix(Then(b, Ready), s.log) && !Since(b).told
    ensures Since(b).asked && Since(b).sound && Since(b).whole
  {
    ReachableOk(cfg, limit, s);
    HonestAtPrefix(s.log, b);
  }

  /** In every run: a waiting session is discarding if and only if there was trouble and
      no Sync has reached the engine since. */
  lemma DiscardingExactly(cfg: Config, limit: nat, s: Session)
    requires ValidConfig(cfg) && Reachable(cfg, limit, s) && s.pc.Waiting?
    ensures s.seg.discarding <==> Owing(s.log)
  {
    ReachableOk(cfg, limit, s);
  }

  /** In every run: a session that goes on after an Execute or a Flush is discarding if
      and only if a message carried the target's error, one was not passed on, or the
      call failed. */
  lemma StreamEndsExactly(cfg: Config, limit: nat, s: Session, lane: Lane, o: Outcome)
    requires ValidConfig(cfg) && Reachable(cfg, limit, s) && lane.limit == limit
    requires s.pc.Driving? && !s.unwinding && StreamDrive(s.pc.drive)
    ensures var t := OnFinish(lane, s, o).1;
            t.pc.Waiting? ==> (t.seg.discarding <==> Since(s.log).erred || !Since(s.log).whole || o.failed)
  {
    ReachableOk(cfg, limit, s);
    BackKept(cfg, limit, s, o);
    var held := Back(s, o).seg.(held := s.pc.acct.held);
    FinishStreamKept(cfg, limit, Back(s, o).(seg := held), AskedBy(s.pc.drive), s.pc.acct, o, s.pc.drive.FlushDrive?);
    if OnFinish(lane, s, o).1.pc.Waiting? {
      OnlyWithheldGoesOn(Back(s, o).(seg := held), s.pc.acct, o, s.pc.drive.FlushDrive?);
    }
  }

  /** A write that failed, or a message that could not be framed, ends the session. */
  lemma OnlyWithheldGoesOn(s: Session, acct: Account, o: Outcome, collects: bool)
    requires FinishStream(s, acct, o, collects).pc.Waiting?
    ensures !Clean(acct) ==> acct.withheld != OutputComplete
  {
  }

  /** In every run: once a message carried the target's error in a stream, or was not
      passed on, or an extended frame was refused, the query executor is called for
      nothing until the client's Sync reaches it; but the status may be read, before
      the next frame, to tell the client what was withheld. */
  lemma DiscardInEveryRun(cfg: Config, limit: nat, s: Session, i: nat, j: nat)
    requires ValidConfig(cfg) && Reachable(cfg, limit, s)
    requires i < j < |Events(s.log)| && TroubleAt(s.log, i) && EngineWork(Events(s.log)[j])
    ensures SyncedBetween(s.log, i, j) || (Events(s.log)[j].StatusRead? && !ReceivedBetween(s.log, i, j))
  {
    ReachableOk(cfg, limit, s);
    NoEngineWorkUntilSync(s.log, i, j);
  }

  lemma {:induction false} CapsAtPrefix(cfg: Config, l: Log, p: Log)
    requires CapsOk(cfg, l) && IsPrefix(p, l)
    ensures Dispatched(p) <= cfg.messageCap && Charged(p) <= cfg.byteCap
  {
    if p != l {
      CapsAtPrefix(cfg, l.before, p);
    }
  }

  /** In every run: between two Syncs the engine sees at most the message cap's
      number of extended frames, whose declared and decoded sizes together stay
      within the byte cap. */
  lemma CapsInEveryRun(cfg: Config, limit: nat, s: Session, p: Log)
    requires ValidConfig(cfg) && Reachable(cfg, limit, s) && IsPrefix(p, s.log)
    ensures Dispatched(p) <= cfg.messageCap && Charged(p) <= cfg.byteCap
  {
    ReachableOk(cfg, limit, s);
    CapsAtPrefix(cfg, s.log, p);
  }

  /** The byte counter's saturation branch is never taken: whatever frame comes
      next, both of its charges fit. */
  lemma SaturationUnreachable(cfg: Config, limit: nat, s: Session, m: Msg, declared: nat)
    requires ValidConfig(cfg) && Reachable(cfg, limit, s) && s.pc.Waiting? && !s.seg.discarding
    requires Decodable(m) && declared <= cfg.bodyCap + 4
    ensures s.seg.bytes + declared + SegmentDecodedDelta(m) <= MAX_INT64
  {
    ReachableOk(cfg, limit, s);
    assert SegmentDecodedDelta(m) <= MAX_DELTA;
  }

  /** The production caps, with any body cap up to its ceiling. */
  lemma ProductionConfigIsValid(bodyCap: nat)
    requires bodyCap <= 256 * 1024 * 1024
    ensures var lim := Limits(PENDING_OUTPUT_WATERMARK, 8 * 1024 * 1024 * 1024);
            ValidConfig(Config(lim, 10_000, 96 * 1024 * 1024, bodyCap))
  {
  }

  /** In every run, a simple query never has more output pending than it holds
      of the lane, once the lane can hold one watermark. */
  lemma QueryOutputReserved(cfg: Config, limit: nat, s: Session)
    requires ValidConfig(cfg) && Reachable(cfg, limit, s) && cfg.lim.watermark <= limit
    requires s.pc.Driving? && s.pc.drive.QueryDrive?
    ensures s.pc.acct.pending <= s.pc.acct.held && s.pc.acct.forwarded <= cfg.lim.outputCap
  {
    ReachableOk(cfg, limit, s);
  }
}
