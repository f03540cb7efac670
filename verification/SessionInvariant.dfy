/** What every step of one session keeps. */
module SessionInvariant {
  import opened GeneralLane
  import opened Accounting
  import opened Session
  import opened SessionLog

  /** Decoding reads element counts from sixteen-bit fields. */
  predicate Decodable(m: Msg) {
    match m
    case Parse(oids) => oids < 0x1_0000
    case Bind(ps, pf, rf) => ps < 0x1_0000 && pf < 0x1_0000 && rf < 0x1_0000
    case _ => true
  }

  const MAX_DELTA := 0xFFFF * 24 + 2 * 0xFFFF * 2 + 32

  /** Caps under which the byte counter has room for one frame past its cap; the
      production caps leave it with more than half its range to spare. */
  predicate ValidConfig(cfg: Config) {
    && 0 < cfg.lim.watermark
    && cfg.byteCap + cfg.bodyCap + 4 + MAX_DELTA <= MAX_INT64
  }

  /** The log is proper, and agrees with the segment counters. */
  ghost predicate Kept(cfg: Config, s: Session) {
    && CyclesOk(s.log) && Honest(s.log) && Quiet(s.log) && CapsOk(cfg, s.log)
    && Dispatched(s.log) <= s.seg.msgs && Charged(s.log) <= s.seg.bytes
    && s.seg.bytes <= cfg.byteCap + cfg.bodyCap + 4 + MAX_DELTA
  }

  predicate StreamDrive(d: Drive) { d.ExecuteDrive? || d.FlushDrive? }

  /** This frame is being dealt with, and no readiness has gone out for it. */
  ghost predicate Handling(s: Session, m: Msg) {
    Current(s.log) == OpenCycle(m, false) && OpenReadies(s.log) == 0
  }

  /** The account says what the log does of the messages emitted so far. */
  ghost predicate Matching(l: Log, d: Drive, acct: Account) {
    && (acct.targetFailed <==> Since(l).erred)
    && (Clean(acct) <==> Since(l).whole)
    && (Owing(l) <==> StreamDrive(d) && (acct.targetFailed || !Clean(acct)))
  }

  ghost predicate SessionOk(cfg: Config, limit: nat, s: Session) {
    && Kept(cfg, s)
    && match s.pc
       case Waiting =>
         Settled(s.log) && (s.seg.discarding || WithinCaps(cfg, s.seg)) && (Owing(s.log) <==> s.seg.discarding)
       case Driving(d, acct) =>
         && Handling(s, AskedBy(d)) && !Barred(s.log) && Since(s.log).asked
         && (!s.unwinding ==> Matching(s.log, d, acct))
         && (d.SyncDrive? ==> Dispatched(s.log) == 0 && Charged(s.log) == 0)
         && (d.SyncDrive? || (!s.seg.discarding && WithinCaps(cfg, s.seg)))
         && (d.QueryDrive? || s.seg.held <= acct.held)
         && (d.QueryDrive? ==> Bounded(cfg.lim, if cfg.lim.watermark > limit then limit else cfg.lim.watermark, acct))
       case Ending => true
       case Ended => s.seg.held == 0
  }

  // ---- The small moves ---------------------------------------------------------------

  predicate Remark(e: Event) { e.Emitted? || e.Answered? || e.OverCaps? || e.ErrorSent? }

  /** A remark changes what the cycle has come to, and may owe a discard; nothing else. */
  lemma RemarkKept(cfg: Config, s: Session, e: Event)
    requires Kept(cfg, s) && Remark(e)
    ensures var s' := Note(s, e);
            && Kept(cfg, s') && s'.seg == s.seg && s'.pc == s.pc
            && Current(s'.log) == Current(s.log) && OpenReadies(s'.log) == OpenReadies(s.log)
            && Dispatched(s'.log) == Dispatched(s.log) && Charged(s'.log) == Charged(s.log)
            && Barred(s'.log) == Barred(s.log) && (Settled(s'.log) <==> Settled(s.log))
            && (Owing(s'.log) <==> Trouble(s'.log) || Owing(s.log))
  {
  }

  lemma TellKept(cfg: Config, s: Session)
    requires Kept(cfg, s)
    ensures var s' := TellError(s);
            && Kept(cfg, s') && s'.seg == s.seg && s'.pc == s.pc && Since(s'.log) == Since(s.log).(told := true)
            && Current(s'.log) == Current(s.log) && OpenReadies(s'.log) == OpenReadies(s.log)
            && Barred(s'.log) == Barred(s.log) && (Settled(s'.log) <==> Settled(s.log))
            && (Owing(s'.log) <==> Owing(s.log))
  {
    RemarkKept(cfg, s, ErrorSent);
  }

  predicate MayTellReady(l: Log) { Since(l).told || (Since(l).asked && Since(l).sound && Since(l).whole) }

  lemma ReadyKept(cfg: Config, s: Session, writeFails: bool)
    requires Kept(cfg, s) && MayReady(s.log) && MayTellReady(s.log)
    ensures var s' := SendReadinessWith(s, writeFails);
            && Kept(cfg, s') && Settled(s'.log) && s'.seg == s.seg && s'.pc == (if writeFails then Ending else s.pc)
            && (Owing(s'.log) <==> Owing(s.log))
  {
    var l := Then(s.log, Ready);
    assert OpenReadies(l) == 1 && Current(l) == Current(s.log);
  }

  lemma StatusKept(cfg: Config, s: Session)
    requires Kept(cfg, s) && !Barred(s.log)
    ensures var s' := Note(s, StatusRead);
            && Kept(cfg, s') && s'.pc == s.pc && s'.seg == s.seg && Since(s'.log) == Since(s.log)
            && Current(s'.log) == Current(s.log) && OpenReadies(s'.log) == OpenReadies(s.log)
            && !Barred(s'.log) && (Settled(s'.log) <==> Settled(s.log)) && (Owing(s'.log) <==> Owing(s.log))
  {
  }

  lemma ReadinessKept(cfg: Config, s: Session, known: bool, writeFails: bool)
    requires Kept(cfg, s) && MayReady(s.log) && MayTellReady(s.log) && !Barred(s.log)
    ensures var s' := SendReadiness(s, known, writeFails);
            && Kept(cfg, s')
            && (!s'.pc.Ending? ==>
                  Settled(s'.log) && s'.seg == s.seg && s'.pc == s.pc && (Owing(s'.log) <==> Owing(s.log)))
  {
    StatusKept(cfg, s);
    var s' := Note(s, StatusRead);
    assert MayReady(s'.log) && MayTellReady(s'.log);
    if known {
      ReadyKept(cfg, s', writeFails);
    }
  }

  lemma ReceivedKept(cfg: Config, s: Session, m: Msg, dropped: bool)
    requires Kept(cfg, s) && Settled(s.log)
    ensures var s' := Note(s, Received(m, dropped));
            && Kept(cfg, s') && s'.seg == s.seg && s'.pc == s.pc && Since(s'.log) == NEW_TALLY
            && Current(s'.log) == OpenCycle(m, dropped) && OpenReadies(s'.log) == 0
            && Owing(s'.log) == Owing(s.log) && Barred(s'.log) == Owing(s.log)
            && Dispatched(s'.log) == Dispatched(s.log) && Charged(s'.log) == Charged(s.log)
  {
  }

  lemma CallKept(cfg: Config, s: Session, m: Msg, charge: nat)
    requires Kept(cfg, s) && (m.Sync? || (!Owing(s.log) && !Barred(s.log)))
    requires SegmentCall(Engine(m, charge)) ==>
               && WithinCaps(cfg, s.seg)
               && Dispatched(s.log) + 1 <= s.seg.msgs && Charged(s.log) + charge <= s.seg.bytes
    ensures var s' := Note(s, Engine(m, charge));
            && Kept(cfg, s') && s'.seg == s.seg && s'.pc == s.pc && !Owing(s'.log) && !Barred(s'.log)
            && Since(s'.log) == Since(s.log).(asked := true)
            && Current(s'.log) == Current(s.log) && OpenReadies(s'.log) == OpenReadies(s.log)
            && (m.Sync? ==> Dispatched(s'.log) == 0 && Charged(s'.log) == 0)
  {
  }

  /** A refusal of what made trouble: told, and the discard that is owed is armed. */
  lemma RefusalKept(cfg: Config, s: Session, fatal: bool, writeFails: bool)
    requires Kept(cfg, s) && Settled(s.log) && Owing(s.log)
    ensures var s' := FrameExtendedError(s, fatal, writeFails);
            && Kept(cfg, s')
            && (!s'.pc.Ending? ==> Settled(s'.log) && s'.seg.discarding && Owing(s'.log) && s'.pc == s.pc)
  {
    TellKept(cfg, s);
  }

  lemma OverCapsKept(cfg: Config, s: Session, m: Msg, writeFails: bool)
    requires Kept(cfg, s) && Settled(s.log)
    ensures var s' := RefuseOverCaps(s, m, writeFails);
            && Kept(cfg, s')
            && (!s'.pc.Ending? ==> Settled(s'.log) && s'.seg.discarding && Owing(s'.log) && s'.pc == s.pc)
  {
    RemarkKept(cfg, s, OverCaps(m));
    RefusalKept(cfg, Note(s, OverCaps(m)), false, writeFails);
  }

  // ---- A frame -------------------------------------------------------------------------

  lemma AdmitKept(cfg: Config, limit: nat, s: Session, m: Msg, declared: nat, a: Answers)
    requires ValidConfig(cfg) && SessionOk(cfg, limit, s) && s.pc.Waiting? && declared <= cfg.bodyCap + 4
    ensures match AdmitSegmentFrame(cfg, s, m, declared, a)
            case Stop(s') => SessionOk(cfg, limit, s')
            case Skip(s') => SessionOk(cfg, limit, s')
            case Admit(s') =>
              && SessionOk(cfg, limit, s') && s'.pc.Waiting? && s'.log == s.log
              && (Extended(m) && !m.Sync? ==>
                    && !s'.seg.discarding
                    && Dispatched(s.log) + 1 <= s'.seg.msgs && Charged(s.log) + declared <= s'.seg.bytes)
  {
    if s.seg.discarding {
      StillDiscarding(cfg, limit, s, m);
    } else if Extended(m) && !m.Sync? {
      CountedKept(cfg, limit, s, m, declared, a);
    }
  }

  lemma StillDiscarding(cfg: Config, limit: nat, s: Session, m: Msg)
    requires SessionOk(cfg, limit, s) && s.pc.Waiting? && s.seg.discarding
    ensures SessionOk(cfg, limit, Note(s, Received(m, true))) && SessionOk(cfg, limit, End(s))
    ensures SessionOk(cfg, limit, Note(s.(seg := s.seg.(ran := false)), Received(m, true)))
  {
    ReceivedKept(cfg, s, m, true);
    ReceivedKept(cfg, s.(seg := s.seg.(ran := false)), m, true);
  }

  lemma CountedKept(cfg: Config, limit: nat, s: Session, m: Msg, declared: nat, a: Answers)
    requires ValidConfig(cfg) && SessionOk(cfg, limit, s) && s.pc.Waiting? && declared <= cfg.bodyCap + 4
    requires !s.seg.discarding
    ensures var s' := s.(seg := AddBytes(s.seg.(msgs := s.seg.msgs + 1), declared));
            && Dispatched(s.log) + 1 <= s'.seg.msgs && Charged(s.log) + declared <= s'.seg.bytes
            && (WithinCaps(cfg, s'.seg) ==> SessionOk(cfg, limit, s'))
            && (!WithinCaps(cfg, s'.seg) ==> SessionOk(cfg, limit, RefuseOverCaps(s', m, a.writeFails)))
  {
    var s' := s.(seg := AddBytes(s.seg.(msgs := s.seg.msgs + 1), declared));
    assert Kept(cfg, s');
    OverCapsKept(cfg, s', m, a.writeFails);
  }

  lemma RunExtendedKept(cfg: Config, lane: Lane, s: Session, m: Msg, declared: nat, a: Answers)
    requires ValidConfig(cfg)
    requires Kept(cfg, s) && s.pc.Waiting? && Extended(m) && Decodable(m)
    requires Handling(s, m) && Since(s.log) == NEW_TALLY
    requires m.Sync? || (!s.seg.discarding && WithinCaps(cfg, s.seg) && !Owing(s.log) && !Barred(s.log))
    requires !m.Sync? ==> Dispatched(s.log) + 1 <= s.seg.msgs && Charged(s.log) + declared <= s.seg.bytes
    ensures SessionOk(cfg, lane.limit, RunExtended(cfg, lane, s, m, declared, a).1)
  {
    if m.Sync? {
      SyncStarts(cfg, lane.limit, s, declared);
    } else {
      ChargeStarts(cfg, lane, s, m, declared, a);
    }
  }

  lemma ChargeStarts(cfg: Config, lane: Lane, s: Session, m: Msg, declared: nat, a: Answers)
    requires ValidConfig(cfg)
    requires Kept(cfg, s) && s.pc.Waiting? && Extended(m) && !m.Sync? && Decodable(m)
    requires Handling(s, m) && Since(s.log) == NEW_TALLY && !Owing(s.log) && !Barred(s.log)
    requires !s.seg.discarding && WithinCaps(cfg, s.seg)
    requires Dispatched(s.log) + 1 <= s.seg.msgs && Charged(s.log) + declared <= s.seg.bytes
    ensures SessionOk(cfg, lane.limit, RunExtended(cfg, lane, s, m, declared, a).1)
  {
    var charge, s1 := declared + SegmentDecodedDelta(m), s.(seg := AddBytes(s.seg, SegmentDecodedDelta(m)));
    assert RunExtended(cfg, lane, s, m, declared, a) == RunCharged(cfg, lane, s1, m, charge, a);
    StageTwo(cfg, s, m, declared);
    RunChargedKept(cfg, lane, s1, m, charge, a);
  }

  lemma SyncStarts(cfg: Config, limit: nat, s: Session, charge: nat)
    requires Kept(cfg, s) && s.pc.Waiting? && Handling(s, Sync) && Since(s.log) == NEW_TALLY
    ensures SessionOk(cfg, limit, StartDrive(s, Sync, charge))
  {
    CallKept(cfg, s, Sync, charge);
  }

  lemma RunChargedKept(cfg: Config, lane: Lane, s: Session, m: Msg, charge: nat, a: Answers)
    requires Kept(cfg, s) && s.pc.Waiting? && SegmentCall(Engine(m, charge)) && !s.seg.discarding
    requires Handling(s, m) && Since(s.log) == NEW_TALLY && !Owing(s.log) && !Barred(s.log)
    requires Dispatched(s.log) + 1 <= s.seg.msgs && Charged(s.log) + charge <= s.seg.bytes
    ensures SessionOk(cfg, lane.limit, RunCharged(cfg, lane, s, m, charge, a).1)
  {
    if !WithinCaps(cfg, s.seg) {
      OverCapsKept(cfg, s, m, a.writeFails);
    } else if m.Flush? {
      CallKept(cfg, s, m, charge);
    } else {
      ReserveAndCallKept(cfg, lane, s, m, charge, a);
    }
  }

  lemma StageTwo(cfg: Config, s: Session, m: Msg, declared: nat)
    requires ValidConfig(cfg) && Kept(cfg, s) && Decodable(m) && WithinCaps(cfg, s.seg)
    requires Charged(s.log) + declared <= s.seg.bytes
    ensures var s1 := s.(seg := AddBytes(s.seg, SegmentDecodedDelta(m)));
            && Kept(cfg, s1) && s1.seg == s.seg.(bytes := s.seg.bytes + SegmentDecodedDelta(m))
            && Charged(s.log) + declared + SegmentDecodedDelta(m) <= s1.seg.bytes
  {
    assert SegmentDecodedDelta(m) <= MAX_DELTA;
  }

  lemma ReserveAndCallKept(cfg: Config, lane: Lane, s: Session, m: Msg, charge: nat, a: Answers)
    requires Kept(cfg, s) && s.pc.Waiting? && SegmentCall(Engine(m, charge)) && !m.Flush?
    requires Handling(s, m) && Since(s.log) == NEW_TALLY && !Owing(s.log) && !Barred(s.log)
    requires !s.seg.discarding && WithinCaps(cfg, s.seg)
    requires Dispatched(s.log) + 1 <= s.seg.msgs && Charged(s.log) + charge <= s.seg.bytes
    ensures SessionOk(cfg, lane.limit, ReserveAndCall(cfg, lane, s, m, charge, a).1)
  {
    var s2 := if m.Execute? then s.(seg := s.seg.(ran := true)) else s;
    var (_, seg', ok) := ReserveSegment(cfg, lane, s2.seg);
    if ok {
      var s3 := s2.(seg := seg');
      assert Kept(cfg, s3);
      CallKept(cfg, s3, m, charge);
      if !m.Execute? {
        AnswerKept(cfg, lane.limit, Note(s3, Engine(m, charge)), m, a);
      }
    }
  }

  /** An answer that comes at once, without a stream. */
  lemma AnswerKept(cfg: Config, limit: nat, s: Session, m: Msg, a: Answers)
    requires Kept(cfg, s) && s.pc.Waiting? && Settled(s.log) && !Owing(s.log)
    requires Extended(m) && !m.Sync? && !s.seg.discarding && WithinCaps(cfg, s.seg)
    ensures SessionOk(cfg, limit, Answer(Note(s, Answered(m, !a.reply.Accepted?, false)), a))
  {
    var e := Answered(m, !a.reply.Accepted?, false);
    RemarkKept(cfg, s, e);
    if !a.reply.Accepted? {
      RefusalKept(cfg, Note(s, e), a.reply.RefusedFatally?, a.writeFails);
    }
  }

  lemma StartQueryKept(cfg: Config, lane: Lane, s: Session, declared: nat, a: Answers)
    requires ValidConfig(cfg) && Kept(cfg, s) && s.pc.Waiting? && !s.seg.discarding && WithinCaps(cfg, s.seg)
    requires Handling(s, Query) && Since(s.log) == NEW_TALLY && !Owing(s.log) && !Barred(s.log)
    ensures SessionOk(cfg, lane.limit, StartQuery(cfg, lane, s, declared, a).1)
  {
    if Reserve(lane, WorkingSet(cfg, lane)).1 {
      CallKept(cfg, s, Query, declared);
    } else if !a.writeFails {
      TellKept(cfg, s);
      ReadinessKept(cfg, TellError(s), a.statusKnown, a.readyWriteFails);
    }
  }

  lemma RouteKept(cfg: Config, lane: Lane, s: Session, m: Msg, declared: nat, a: Answers)
    requires ValidConfig(cfg)
    requires SessionOk(cfg, lane.limit, s) && s.pc.Waiting? && Decodable(m)
    requires Extended(m) && !m.Sync? ==>
               && !s.seg.discarding
               && Dispatched(s.log) + 1 <= s.seg.msgs && Charged(s.log) + declared <= s.seg.bytes
    ensures SessionOk(cfg, lane.limit, Route(cfg, lane, s, m, declared, a).1)
  {
    var dropped := s.seg.discarding && !m.Sync? && !m.Terminate?;
    ReceivedKept(cfg, s, m, dropped);
    var s' := Note(s, Received(m, dropped));
    if !dropped {
      match m
      case FunctionCall =>
        TellKept(cfg, s');
        ReadinessKept(cfg, TellError(s'), a.statusKnown, a.readyWriteFails);
      case Copy | Terminate | Password =>
      case Query => StartQueryKept(cfg, lane, s', declared, a);
      case _ => RunExtendedKept(cfg, lane, s', m, declared, a);
    }
  }

  /** Every pass of the loop over a frame keeps the session's invariant. */
  lemma FrameKept(cfg: Config, lane: Lane, s: Session, m: Msg, declared: nat, a: Answers)
    requires ValidConfig(cfg)
    requires SessionOk(cfg, lane.limit, s) && s.pc.Waiting? && Decodable(m)
    ensures SessionOk(cfg, lane.limit, OnFrame(cfg, lane, s, m, declared, a).1)
  {
    if declared <= cfg.bodyCap + 4 {
      AdmitKept(cfg, lane.limit, s, m, declared, a);
      var adm := AdmitSegmentFrame(cfg, s, m, declared, a);
      if adm.Admit? && !a.readFails {
        RouteKept(cfg, lane, adm.s, m, declared, a);
      }
    }
  }

  // ---- The engine ----------------------------------------------------------------------

  lemma EmitKept(cfg: Config, lane: Lane, s: Session, m: Emission)
    requires ValidConfig(cfg) && Sized(m)
    requires SessionOk(cfg, lane.limit, s) && s.pc.Driving? && !s.unwinding
    ensures SessionOk(cfg, lane.limit, OnEmit(cfg, lane, s, m).1)
  {
    var (_, acct, forwarded) := Emit(cfg.lim, lane, s.pc.acct, m);
    HeldGrows(cfg.lim, lane, s.pc.acct, m);
    EmitFate(cfg.lim, lane, s.pc.acct, m);
    RemarkKept(cfg, s.(pc := s.pc.(acct := acct)), Emitted(AskedBy(s.pc.drive), m, forwarded));
    if s.pc.drive.QueryDrive? {
      EmitBounded(cfg.lim, WorkingSet(cfg, lane), lane, s.pc.acct, m);
    }
  }

  lemma AnnounceKept(cfg: Config, lane: Lane, s: Session, m: Emission)
    requires ValidConfig(cfg) && SessionOk(cfg, lane.limit, s) && s.pc.Driving? && !s.unwinding
    ensures SessionOk(cfg, lane.limit, OnAnnouncePanic(cfg, lane, s, m).1)
  {
    if s.pc.drive.QueryDrive? && AsksLane(cfg.lim, s.pc.acct, m) {
      AnnounceBounded(cfg.lim, WorkingSet(cfg, lane), lane, s.pc.acct, m);
    }
  }

  /** An emission moves the lane by exactly what the account gains. */
  lemma HeldGrows(lim: Limits, lane: Lane, a: Account, m: Emission)
    ensures var (lane', a', _) := Emit(lim, lane, a, m);
            && lane'.limit == lane.limit && a.held <= a'.held
            && lane'.used - lane.used == a'.held - a.held
            && (lane'.used == lane.used || lane'.used <= lane.limit)
  {
    var a1 := Count(a, m);
    var (lane', a2, granted) := TopUp(lane, a1, m);
    assert Afterwards(lim, lane', a2, granted, m).1.held == a2.held;
  }

  lemma WithheldKept(cfg: Config, s: Session, o: Outcome, owns: bool)
    requires Kept(cfg, s) && !Barred(s.log) && OpenReadies(s.log) == 0 && s.pc.Waiting?
    requires owns ==> MayReady(s.log)
    requires !owns ==> Settled(s.log)
    ensures var s' := ReportOutputWithheld(s, o, owns);
            && Kept(cfg, s')
            && (!s'.pc.Ending? ==>
                  s'.pc.Waiting? && Settled(s'.log) && s'.seg == s.seg && (Owing(s'.log) <==> Owing(s.log)))
  {
    StatusKept(cfg, s);
    var s' := if o.reported then s else Note(s, StatusRead);
    TellKept(cfg, s');
    if owns {
      assert MayReady(TellError(s').log);
      ReadyKept(cfg, TellError(s'), o.readyWriteFails);
    }
  }

  /** What the log holds once the engine's answer is noted. */
  ghost predicate Returned(s: Session, m: Msg, acct: Account, o: Outcome) {
    && s.pc.Waiting? && Handling(s, m) && !Barred(s.log)
    && Since(s.log).asked && (Since(s.log).sound <==> !o.failed) && (Since(s.log).whole <==> Clean(acct))
  }

  lemma FinishQueryKept(cfg: Config, limit: nat, s: Session, acct: Account, o: Outcome)
    requires Kept(cfg, s) && Returned(s, Query, acct, o) && !Owing(s.log)
    requires !s.seg.discarding && WithinCaps(cfg, s.seg)
    ensures SessionOk(cfg, limit, FinishQuery(s, acct, o))
  {
    if acct.withheld != OutputComplete {
      WithheldKept(cfg, s, o, true);
    } else if Clean(acct) && o.failed {
      TellKept(cfg, s);
      ReadinessKept(cfg, TellError(s), o.statusKnown, o.readyWriteFails);
    } else if Clean(acct) {
      ReadyKept(cfg, s, o.readyWriteFails);
    }
  }

  /** A session that goes on after an Execute or a Flush is discarding if and only if a
      message carried the target's error, output was withheld or the call failed. */
  lemma FinishStreamKept(cfg: Config, limit: nat, s: Session, m: Msg, acct: Account, o: Outcome, collects: bool)
    requires Kept(cfg, s) && Returned(s, m, acct, o) && Streams(m)
    requires Owing(s.log) <==> acct.targetFailed || !Clean(acct) || o.failed
    requires !s.seg.discarding && WithinCaps(cfg, s.seg)
    ensures var t := FinishStream(s, acct, o, collects);
            && SessionOk(cfg, limit, t)
            && (t.pc.Waiting? ==>
                  (t.seg.discarding <==> acct.targetFailed || acct.withheld != OutputComplete || o.failed))
  {
    if acct.withheld != OutputComplete {
      WithheldKept(cfg, s, o, false);
    } else if Clean(acct) && o.failed {
      RefusalKept(cfg, s, o.fatal, o.writeFails);
    } else if Clean(acct) {
      assert Kept(cfg, s.(seg := s.seg.(ran := false)));
    }
  }

  lemma FinishSyncKept(cfg: Config, limit: nat, s: Session, acct: Account, o: Outcome)
    requires Kept(cfg, s) && Returned(s, Sync, acct, o) && s.seg == NO_SEGMENT
    requires Owing(s.log) <==> o.failed && !(o.deferred && o.statusKnown) && Clean(acct)
    ensures SessionOk(cfg, limit, FinishSync(s, acct, o))
  {
    if acct.withheld != OutputComplete {
      WithheldKept(cfg, s, o, true);
    } else if Clean(acct) && o.failed && o.deferred && o.statusKnown {
      TellKept(cfg, s);
      ReadyKept(cfg, TellError(s), o.readyWriteFails);
    } else if Clean(acct) && o.failed {
      RefusalKept(cfg, s, o.fatal, o.writeFails);
    } else if Clean(acct) {
      ReadyKept(cfg, s, o.readyWriteFails);
    }
  }

  lemma BackKept(cfg: Config, limit: nat, s: Session, o: Outcome)
    requires SessionOk(cfg, limit, s) && s.pc.Driving? && !s.unwinding
    ensures Kept(cfg, Back(s, o)) && Returned(Back(s, o), AskedBy(s.pc.drive), s.pc.acct, o)
    ensures Dispatched(Back(s, o).log) == Dispatched(s.log) && Charged(Back(s, o).log) == Charged(s.log)
    ensures var d, acct, owing := s.pc.drive, s.pc.acct, Owing(Back(s, o).log);
            && (d.QueryDrive? ==> !owing)
            && (StreamDrive(d) ==> (owing <==> acct.targetFailed || !Clean(acct) || o.failed))
            && (d.SyncDrive? ==> (owing <==> o.failed && !(o.deferred && o.statusKnown) && Clean(acct)))
  {
    RemarkKept(cfg, s.(pc := Waiting), Answered(AskedBy(s.pc.drive), o.failed, o.deferred && o.statusKnown));
  }

  /** The engine's answer keeps the invariant, on every drive. */
  lemma FinishKept(cfg: Config, lane: Lane, s: Session, o: Outcome)
    requires SessionOk(cfg, lane.limit, s) && s.pc.Driving? && !s.unwinding
    ensures SessionOk(cfg, lane.limit, OnFinish(lane, s, o).1)
  {
    var acct, back := s.pc.acct, Back(s, o);
    BackKept(cfg, lane.limit, s, o);
    match s.pc.drive
    case QueryDrive => FinishQueryKept(cfg, lane.limit, back, acct, o);
    case ExecuteDrive =>
      FinishStreamKept(cfg, lane.limit, back.(seg := back.seg.(held := acct.held)), Execute, acct, o, false);
    case FlushDrive =>
      FinishStreamKept(cfg, lane.limit, back.(seg := back.seg.(held := acct.held)), Flush, acct, o, true);
    case SyncDrive => FinishSyncKept(cfg, lane.limit, back.(seg := NO_SEGMENT), acct, o);
  }
}
