/** Which clock a waiting session is under: the stall budget is for a client that asked for
    output and has not collected it (frontdoor/session_extended.go:139, 205-215, 431-438,
    716-722, 775-797). */
module SessionStall {
  import opened GeneralLane
  import opened Accounting
  import opened Session
  import opened SessionLog
  import opened SessionInvariant
  import opened Sessions

  /** An Execute reached the engine, and since then neither a Sync has, nor a Flush that
      was answered in full or dropped behind an error. */
  predicate Uncollected(l: Log) {
    match l
    case Nothing => false
    case Then(b, Engine(m, _)) => m.Execute? || (!m.Sync? && Uncollected(b))
    case Then(b, Received(m, dropped)) => !(m.Flush? && dropped) && Uncollected(b)
    case Then(b, Answered(m, failed, _)) => !(m.Flush? && !failed && Since(b).whole) && Uncollected(b)
    case Then(b, _) => Uncollected(b)
  }

  /** A session knows whether it has output to be collected; a Sync at the engine leaves none. */
  predicate Clocked(s: Session) {
    && (s.pc.Waiting? || (s.pc.Driving? && !s.pc.drive.SyncDrive?) ==> (s.seg.ran <==> Uncollected(s.log)))
    && (s.pc.Driving? && s.pc.drive.SyncDrive? ==> !Uncollected(s.log))
  }

  predicate Aside(e: Event) { e.Emitted? || e.OverCaps? || e.ErrorSent? || e.StatusRead? || e.Ready? }

  lemma AsideClocked(l: Log, e: Event)
    requires Aside(e)
    ensures Uncollected(Then(l, e)) == Uncollected(l)
  {
  }

  lemma ReadinessClocked(s: Session, known: bool, writeFails: bool)
    ensures Uncollected(SendReadinessWith(s, writeFails).log) == Uncollected(s.log)
    ensures Uncollected(SendReadiness(s, known, writeFails).log) == Uncollected(s.log)
    ensures SendReadiness(s, known, writeFails).seg == SendReadinessWith(s, writeFails).seg == s.seg
  {
    AsideClocked(s.log, Ready);
    AsideClocked(s.log, StatusRead);
    AsideClocked(Then(s.log, StatusRead), Ready);
  }

  lemma RefusalClocked(s: Session, fatal: bool, writeFails: bool)
    ensures var t := FrameExtendedError(s, fatal, writeFails);
            Uncollected(t.log) == Uncollected(s.log) && t.seg.ran == s.seg.ran
  {
    AsideClocked(s.log, ErrorSent);
  }

  lemma OverCapsClocked(s: Session, m: Msg, writeFails: bool)
    ensures var t := RefuseOverCaps(s, m, writeFails);
            Uncollected(t.log) == Uncollected(s.log) && t.seg.ran == s.seg.ran
  {
    AsideClocked(s.log, OverCaps(m));
    RefusalClocked(Note(s, OverCaps(m)), false, writeFails);
  }

  lemma ReportClocked(s: Session, o: Outcome, ownsTerminal: bool)
    ensures var t := ReportOutputWithheld(s, o, ownsTerminal);
            Uncollected(t.log) == Uncollected(s.log) && t.seg == s.seg
  {
    var s' := if o.reported then s else Note(s, StatusRead);
    AsideClocked(s.log, StatusRead);
    AsideClocked(s'.log, ErrorSent);
    ReadinessClocked(TellError(s'), true, o.readyWriteFails);
  }

  // ---- a frame ----

  lemma FrameClocked(cfg: Config, lane: Lane, s: Session, m: Msg, declared: nat, a: Answers)
    requires Clocked(s) && s.pc.Waiting?
    ensures Clocked(OnFrame(cfg, lane, s, m, declared, a).1)
  {
    if declared <= cfg.bodyCap + 4 {
      var adm := AdmitSegmentFrame(cfg, s, m, declared, a);
      AdmissionClocked(cfg, s, m, declared, a);
      if adm.Admit? && !a.readFails {
        RouteClocked(cfg, lane, adm.s, m, declared, a);
      }
    }
  }

  lemma AdmissionClocked(cfg: Config, s: Session, m: Msg, declared: nat, a: Answers)
    requires Clocked(s) && s.pc.Waiting?
    ensures var adm := AdmitSegmentFrame(cfg, s, m, declared, a);
            Clocked(adm.s) && (adm.Admit? ==> adm.s.pc.Waiting? && (Extended(m) && !m.Sync? ==> !adm.s.seg.discarding))
  {
    OverCapsClocked(s.(seg := AddBytes(s.seg.(msgs := s.seg.msgs + 1), declared)), m, a.writeFails);
  }

  lemma RouteClocked(cfg: Config, lane: Lane, s: Session, m: Msg, declared: nat, a: Answers)
    requires Clocked(s) && s.pc.Waiting? && (Extended(m) && !m.Sync? ==> !s.seg.discarding)
    ensures Clocked(Route(cfg, lane, s, m, declared, a).1)
  {
    var dropped := s.seg.discarding && !m.Sync? && !m.Terminate?;
    var s' := Note(s, Received(m, dropped));
    assert Uncollected(s'.log) == Uncollected(s.log);
    if !dropped {
      if Extended(m) {
        ExtendedClocked(cfg, lane, s', m, declared, a);
        assert Route(cfg, lane, s, m, declared, a) == RunExtended(cfg, lane, s', m, declared, a);
      } else {
        AsideClocked(s'.log, ErrorSent);
        ReadinessClocked(TellError(s'), a.statusKnown, a.readyWriteFails);
      }
    }
  }

  lemma ExtendedClocked(cfg: Config, lane: Lane, s: Session, m: Msg, declared: nat, a: Answers)
    requires Clocked(s) && s.pc.Waiting? && Extended(m)
    ensures Clocked(RunExtended(cfg, lane, s, m, declared, a).1)
  {
    if !m.Sync? {
      var charged := s.(seg := AddBytes(s.seg, SegmentDecodedDelta(m)));
      OverCapsClocked(charged, m, a.writeFails);
      CallClocked(cfg, lane, charged, m, declared + SegmentDecodedDelta(m), a);
    }
  }

  lemma CallClocked(cfg: Config, lane: Lane, s: Session, m: Msg, charge: nat, a: Answers)
    requires Clocked(s) && s.pc.Waiting? && Extended(m) && !m.Sync?
    ensures !m.Flush? ==> Clocked(ReserveAndCall(cfg, lane, s, m, charge, a).1)
  {
    var s2 := if m.Execute? then s.(seg := s.seg.(ran := true)) else s;
    var called := Note(s2.(seg := ReserveSegment(cfg, lane, s2.seg).1), Engine(m, charge));
    var answered := Note(called, Answered(m, !a.reply.Accepted?, false));
    RefusalClocked(answered, a.reply.RefusedFatally?, a.writeFails);
  }

  // ---- the engine's answer ----

  lemma AnsweredClocked(s: Session, o: Outcome)
    requires s.pc.Driving?
    ensures var d, back := s.pc.drive, Back(s, o);
            && back.seg == s.seg
            && (Uncollected(back.log) <==>
                  !(d.FlushDrive? && !o.failed && Since(s.log).whole) && Uncollected(s.log))
  {
  }

  lemma FinishClocked(cfg: Config, lane: Lane, s: Session, o: Outcome)
    requires Clocked(s) && SessionOk(cfg, lane.limit, s) && s.pc.Driving? && !s.unwinding
    ensures Clocked(OnFinish(lane, s, o).1)
  {
    var acct, back := s.pc.acct, Back(s, o);
    AnsweredClocked(s, o);
    match s.pc.drive
    case QueryDrive => QueryClocked(back, acct, o);
    case SyncDrive => SyncClocked(back.(seg := NO_SEGMENT), acct, o);
    case ExecuteDrive => StreamClocked(back.(seg := back.seg.(held := acct.held)), acct, o, false);
    case FlushDrive => StreamClocked(back.(seg := back.seg.(held := acct.held)), acct, o, true);
  }

  lemma QueryClocked(s: Session, acct: Account, o: Outcome)
    ensures var t := FinishQuery(s, acct, o); t.seg == s.seg && Uncollected(t.log) == Uncollected(s.log)
  {
    ReportClocked(s, o, true);
    AsideClocked(s.log, ErrorSent);
    ReadinessClocked(s, o.statusKnown, o.readyWriteFails);
    ReadinessClocked(TellError(s), o.statusKnown, o.readyWriteFails);
  }

  lemma SyncClocked(s: Session, acct: Account, o: Outcome)
    ensures var t := FinishSync(s, acct, o); t.seg.ran == s.seg.ran && Uncollected(t.log) == Uncollected(s.log)
  {
    ReportClocked(s, o, true);
    RefusalClocked(s, o.fatal, o.writeFails);
    AsideClocked(s.log, ErrorSent);
    ReadinessClocked(s, true, o.readyWriteFails);
    ReadinessClocked(TellError(s), true, o.readyWriteFails);
  }

  lemma StreamClocked(s: Session, acct: Account, o: Outcome, collects: bool)
    requires s.pc.Waiting?
    ensures var t := FinishStream(s, acct, o, collects);
            t.pc.Waiting? ==>
              && Uncollected(t.log) == Uncollected(s.log)
              && t.seg.ran == (s.seg.ran && !(collects && !o.failed && Clean(acct)))
  {
    ReportClocked(s, o, false);
    RefusalClocked(s, o.fatal, o.writeFails);
  }

  // ---- every run ----

  lemma EffectClocked(cfg: Config, lane: Lane, s: Session, step: Step)
    requires !step.Open? && Possible(s, step) && SessionOk(cfg, lane.limit, s) && Clocked(s)
    ensures Clocked(Effect(cfg, lane, s, step).1)
  {
    match step
    case Frame(_, m, declared, a) => FrameClocked(cfg, lane, s, m, declared, a);
    case EngineEmits(_, e) =>
      var forwarded := Emit(cfg.lim, lane, s.pc.acct, e).2;
      AsideClocked(s.log, Emitted(AskedBy(s.pc.drive), e, forwarded));
    case AnnouncementPanics(_, e) =>
    case EngineAnswers(_, o) => FinishClocked(cfg, lane, s, o);
    case Disconnect(_) =>
    case Panic(_) =>
    case CloseSession(_) =>
  }

  predicate AllClocked(ss: seq<Session>) { forall i :: 0 <= i < |ss| ==> Clocked(ss[i]) }

  lemma NextClocked(sys: System, step: Step)
    requires Inv(sys) && AllClocked(sys.sessions)
    ensures AllClocked(Next(sys, step).sessions)
  {
    if Enabled(sys, step) && !step.Open? {
      EffectClocked(sys.cfg, sys.lane, sys.sessions[step.i], step);
    } else if step.Open? {
      assert Clocked(NEW_SESSION);
    }
  }

  lemma {:induction false} RunClocked(cfg: Config, limit: nat, steps: seq<Step>)
    requires ValidConfig(cfg)
    ensures AllClocked(Run(Start(cfg, limit), steps).sessions)
    decreases |steps|
  {
    if steps != [] {
      var init := steps[..|steps| - 1];
      RunClocked(cfg, limit, init);
      LaneLedger(cfg, limit, init);
      NextClocked(Run(Start(cfg, limit), init), steps[|steps| - 1]);
    }
  }

  /** In every run a waiting session is under the stall budget if and only if an Execute
      reached the engine and nothing has collected its output since. */
  lemma StallExactly(cfg: Config, limit: nat, s: Session)
    requires ValidConfig(cfg) && Reachable(cfg, limit, s) && s.pc.Waiting?
    ensures s.seg.ran <==> Uncollected(s.log)
  {
    var steps: seq<Step> :| s in Run(Start(cfg, limit), steps).sessions;
    RunClocked(cfg, limit, steps);
  }
}
