/** One post-authentication session: what the loop does with each frame, each
    engine message and each engine answer (frontdoor/session_loop.go,
    frontdoor/session_extended.go). The engine and the socket are a
    nondeterministic environment: every step is given their answers. */
module Session {
  import opened GeneralLane
  import opened Accounting

  const MAX_INT64 := 0x7FFF_FFFF_FFFF_FFFF

  datatype Config = Config(lim: Limits, messageCap: nat, byteCap: nat, bodyCap: nat)

  /** A decoded frontend message, with what its decoding allocates. */
  datatype Msg =
    | Parse(parameterOIDs: nat)
    | Bind(parameters: nat, parameterFormats: nat, resultFormats: nat)
    | Describe | Close | Execute | Flush | Sync
    | Query | FunctionCall | Copy | Terminate | Password

  predicate Extended(m: Msg) {
    m.Parse? || m.Bind? || m.Describe? || m.Close? || m.Execute? || m.Flush? || m.Sync?
  }

  /** The frames whose cycle ends with readiness. */
  predicate OwesReady(m: Msg) {
    m.Query? || m.FunctionCall? || m.Sync?
  }

  function SegmentDecodedDelta(m: Msg): nat {
    match m
    case Parse(oids) => oids * 4 + 2 * 16
    case Bind(ps, pf, rf) => ps * 24 + (pf + rf) * 2 + 2 * 16
    case Describe | Close | Execute => 16
    case _ => 0
  }

  // ---- The segment ---------------------------------------------------------------

  datatype Segment = Segment(ran: bool, held: nat, msgs: nat, bytes: nat, discarding: bool)

  const NO_SEGMENT := Segment(false, 0, 0, 0, false)

  function AddBytes(s: Segment, n: nat): Segment {
    s.(bytes := if s.bytes > MAX_INT64 - n then MAX_INT64 else s.bytes + n)
  }

  predicate WithinCaps(cfg: Config, s: Segment) {
    s.msgs <= cfg.messageCap && s.bytes <= cfg.byteCap
  }

  /** The working set a statement or a segment starts with. */
  function WorkingSet(cfg: Config, lane: Lane): nat {
    if cfg.lim.watermark > lane.limit then lane.limit else cfg.lim.watermark
  }

  /** Takes the segment's working set before its first response-producing frame;
      a segment that already holds one takes nothing more. */
  function ReserveSegment(cfg: Config, lane: Lane, s: Segment): (Lane, Segment, bool) {
    if s.held > 0 then (lane, s, true)
    else
      var (lane', ok) := Reserve(lane, WorkingSet(cfg, lane));
      if ok then (lane', s.(held := WorkingSet(cfg, lane)), true) else (lane', s, false)
  }

  // ---- What is recorded ------------------------------------------------------------

  /** What a session has done and met, in order. `charge` is the declared length of
      the frame plus what its decoding allocated. `Emitted` and `Answered` are the
      engine's doing on the call for `m`: a message, and whether it was passed on; the
      answer, and whether a failed one was deferred behind a status. `ErrorSent` is an
      error frame of the front door's own. */
  datatype Event =
    | Received(m: Msg, dropped: bool)
    | Engine(m: Msg, charge: nat)
    | Emitted(m: Msg, emission: Emission, forwarded: bool)
    | Answered(m: Msg, failed: bool, deferred: bool)
    | OverCaps(m: Msg)
    | ErrorSent
    | StatusRead
    | Ready

  datatype Log = Nothing | Then(before: Log, last: Event)

  // ---- The session -----------------------------------------------------------------

  datatype Drive = QueryDrive | ExecuteDrive | FlushDrive | SyncDrive

  datatype Pc = Waiting | Driving(drive: Drive, acct: Account) | Ending | Ended

  /** `leaked` counts lane bytes no later release will return; `unwinding` says that a
      panic is on its way out of the engine call. */
  datatype Session = Session(pc: Pc, seg: Segment, log: Log, leaked: nat, unwinding: bool)

  const NEW_SESSION := Session(Waiting, NO_SEGMENT, Nothing, 0, false)

  /** The frame a drive answers. */
  function AskedBy(d: Drive): Msg {
    match d
    case QueryDrive => Query
    case ExecuteDrive => Execute
    case FlushDrive => Flush
    case SyncDrive => Sync
  }

  function Note(s: Session, e: Event): Session { s.(log := Then(s.log, e)) }

  function End(s: Session): Session { s.(pc := Ending) }

  function Arm(s: Session): Session { s.(seg := s.seg.(discarding := true)) }

  function TellError(s: Session): Session { Note(s, ErrorSent) }

  /** Sends ReadyForQuery; a failed write ends the session after it. */
  function SendReadinessWith(s: Session, writeFails: bool): Session {
    var s' := Note(s, Ready);
    if writeFails then End(s') else s'
  }

  /** Asks the engine for the transaction status first. */
  function SendReadiness(s: Session, statusKnown: bool, writeFails: bool): Session {
    var s' := Note(s, StatusRead);
    if !statusKnown then End(s') else SendReadinessWith(s', writeFails)
  }

  /** The environment's answers to one frame: does the read fail, does an error
      frame's write fail, what does the engine answer, is a status it reports a
      status, does the readiness write fail. */
  datatype Reply = Accepted | RefusedFatally | Refused
  datatype Answers = Answers(readFails: bool, writeFails: bool, reply: Reply, statusKnown: bool, readyWriteFails: bool)

  /** The front door's own refusal of an extended frame: told, then discard
      until Sync; no readiness. */
  function FrameExtendedError(s: Session, fatal: bool, writeFails: bool): Session {
    if fatal || writeFails then End(s) else Arm(TellError(s))
  }

  /** The segment's caps are passed: the same, before the engine is asked. */
  function RefuseOverCaps(s: Session, m: Msg, writeFails: bool): Session {
    FrameExtendedError(Note(s, OverCaps(m)), false, writeFails)
  }

  // ---- A frame arrives ---------------------------------------------------------------

  /** Header-first admission of one frame: refused outright, skipped, or let in. */
  datatype Admission = Stop(s: Session) | Skip(s: Session) | Admit(s: Session)

  function AdmitSegmentFrame(cfg: Config, s: Session, m: Msg, declared: nat, a: Answers): Admission {
    if !Extended(m) || m.Sync? then Admit(s)
    else if s.seg.discarding then
      if m.Flush? then
        if a.writeFails then Stop(End(s)) else Skip(Note(s.(seg := s.seg.(ran := false)), Received(m, true)))
      else Skip(Note(s, Received(m, true)))
    else
      var s' := s.(seg := AddBytes(s.seg.(msgs := s.seg.msgs + 1), declared));
      if WithinCaps(cfg, s'.seg) then Admit(s')
      else if a.writeFails then Stop(RefuseOverCaps(s', m, true))
      else Skip(RefuseOverCaps(s', m, false))
  }

  function DriveOf(m: Msg): Drive
    requires m.Execute? || m.Flush? || m.Sync?
  {
    if m.Execute? then ExecuteDrive else if m.Flush? then FlushDrive else SyncDrive
  }

  /** Flush and Sync collect: they go to the engine under what the segment
      already holds, and reserve nothing. */
  function StartDrive(s: Session, m: Msg, charge: nat): Session
    requires m.Flush? || m.Sync?
  {
    Note(s.(pc := Driving(DriveOf(m), Opened(s.seg.held))), Engine(m, charge))
  }

  /** A segment frame whose decoding has been charged: over the caps, or on. */
  function RunCharged(cfg: Config, lane: Lane, s: Session, m: Msg, charge: nat, a: Answers): (Lane, Session) {
    if !WithinCaps(cfg, s.seg) then (lane, RefuseOverCaps(s, m, a.writeFails))
    else if m.Flush? then (lane, StartDrive(s, m, charge))
    else ReserveAndCall(cfg, lane, s, m, charge, a)
  }

  function RunExtended(cfg: Config, lane: Lane, s: Session, m: Msg, declared: nat, a: Answers): (Lane, Session)
    requires Extended(m)
  {
    var charge := declared + SegmentDecodedDelta(m);
    if m.Sync? then (lane, StartDrive(s, m, charge))
    else RunCharged(cfg, lane, s.(seg := AddBytes(s.seg, SegmentDecodedDelta(m))), m, charge, a)
  }

  /** The frames that may create output: the working set first, then the engine. */
  function ReserveAndCall(cfg: Config, lane: Lane, s: Session, m: Msg, charge: nat, a: Answers): (Lane, Session) {
    var s2 := if m.Execute? then s.(seg := s.seg.(ran := true)) else s;
    var (lane', seg', ok) := ReserveSegment(cfg, lane, s2.seg);
    if !ok then (lane', End(s2))
    else
      var s3 := Note(s2.(seg := seg'), Engine(m, charge));
      (lane', if m.Execute? then s3.(pc := Driving(ExecuteDrive, Opened(seg'.held)))
              else Answer(Note(s3, Answered(m, !a.reply.Accepted?, false)), a))
  }

  function Answer(s: Session, a: Answers): Session {
    if a.reply.Accepted? then s else FrameExtendedError(s, a.reply.RefusedFatally?, a.writeFails)
  }

  function StartQuery(cfg: Config, lane: Lane, s: Session, declared: nat, a: Answers): (Lane, Session) {
    var (lane', ok) := Reserve(lane, WorkingSet(cfg, lane));
    if ok then (lane', Note(s.(pc := Driving(QueryDrive, Opened(WorkingSet(cfg, lane)))), Engine(Query, declared)))
    else (lane', if a.writeFails then End(s) else SendReadiness(TellError(s), a.statusKnown, a.readyWriteFails))
  }

  /** A received frame is routed: discarded, decided, or handed to the engine. */
  function Route(cfg: Config, lane: Lane, s: Session, m: Msg, declared: nat, a: Answers): (Lane, Session) {
    var dropped := s.seg.discarding && !m.Sync? && !m.Terminate?;
    var s' := Note(s, Received(m, dropped));
    if dropped then (lane, s')
    else match m
      case FunctionCall => (lane, SendReadiness(TellError(s'), a.statusKnown, a.readyWriteFails))
      case Copy | Terminate | Password => (lane, End(s'))
      case Query => StartQuery(cfg, lane, s', declared, a)
      case _ => RunExtended(cfg, lane, s', m, declared, a)
  }

  /** One pass of the session loop over one frame. */
  function OnFrame(cfg: Config, lane: Lane, s: Session, m: Msg, declared: nat, a: Answers): (Lane, Session) {
    if declared > cfg.bodyCap + 4 then (lane, End(s))
    else match AdmitSegmentFrame(cfg, s, m, declared, a)
      case Stop(s') => (lane, s')
      case Skip(s') => (lane, s')
      case Admit(s') => if a.readFails then (lane, End(s')) else Route(cfg, lane, s', m, declared, a)
  }

  // ---- The engine emits, and answers ---------------------------------------------------

  function OnEmit(cfg: Config, lane: Lane, s: Session, m: Emission): (Lane, Session)
    requires s.pc.Driving?
  {
    var (lane', acct, forwarded) := Emit(cfg.lim, lane, s.pc.acct, m);
    (lane', Note(s.(pc := s.pc.(acct := acct)), Emitted(AskedBy(s.pc.drive), m, forwarded)))
  }

  /** The host's callback panics while the lane's answer to a large frame is announced.
      The message goes nowhere and the call is left unwinding: what becomes of the
      session is OnPanic's. */
  function OnAnnouncePanic(cfg: Config, lane: Lane, s: Session, m: Emission): (Lane, Session)
    requires s.pc.Driving?
  {
    if !AsksLane(cfg.lim, s.pc.acct, m) then (lane, s)
    else
      var (lane', acct, lost) := AnnouncePanics(cfg.lim, lane, s.pc.acct, m);
      (lane', s.(pc := s.pc.(acct := acct), leaked := s.leaked + lost, unwinding := true))
  }

  /** How an engine call ends: did it fail, with a refusal that is fatal, or one
      deferred behind a valid status; did it report a snapshot when stopped, and
      is the status it reports (or is asked for) a status; what the writes do. */
  datatype Outcome = Outcome(failed: bool, fatal: bool, deferred: bool, reported: bool, statusKnown: bool,
                             writeFails: bool, readyWriteFails: bool)

  /** Output was withheld after the statement ran: say so, and end the cycle
      with readiness only where the cycle owns it. */
  function ReportOutputWithheld(s: Session, o: Outcome, ownsTerminal: bool): Session {
    var s' := if o.reported then s else Note(s, StatusRead);
    if !o.statusKnown || o.writeFails then End(s')
    else if ownsTerminal then SendReadinessWith(TellError(s'), o.readyWriteFails)
    else TellError(s')
  }

  function FinishQuery(s: Session, acct: Account, o: Outcome): Session {
    if acct.withheld != OutputComplete then ReportOutputWithheld(s, o, true)
    else if acct.writeFailed || acct.unframeable then End(s)
    else if o.failed then if o.fatal then End(s) else SendReadiness(TellError(s), o.statusKnown, o.readyWriteFails)
    else if !o.statusKnown then End(s)
    else SendReadinessWith(s, o.readyWriteFails)
  }

  function FinishStream(s: Session, acct: Account, o: Outcome, collects: bool): Session {
    if acct.withheld != OutputComplete then
      var s' := ReportOutputWithheld(s, o, false);
      if s'.pc.Ending? then s' else Arm(s')
    else if acct.writeFailed || acct.unframeable then End(s)
    else if o.failed then FrameExtendedError(s, o.fatal, o.writeFails)
    else if collects && o.writeFails then End(s)
    else
      var s' := if collects then s.(seg := s.seg.(ran := false)) else s;
      if acct.targetFailed then Arm(s') else s'
  }

  function FinishSync(s: Session, acct: Account, o: Outcome): Session {
    if acct.withheld != OutputComplete then ReportOutputWithheld(s, o, true)
    else if acct.writeFailed || acct.unframeable then End(s)
    else if o.failed && o.deferred && o.statusKnown then
      if o.fatal || o.writeFails then End(s) else SendReadinessWith(TellError(s), o.readyWriteFails)
    else if o.failed then FrameExtendedError(s, o.fatal, o.writeFails)
    else if !o.statusKnown then End(s)
    else SendReadinessWith(s, o.readyWriteFails)
  }

  /** The answer is noted before anything is made of it. */
  function Back(s: Session, o: Outcome): Session
    requires s.pc.Driving?
  {
    Note(s.(pc := Waiting), Answered(AskedBy(s.pc.drive), o.failed, o.deferred && o.statusKnown))
  }

  /** The engine call returns. A query gives its working set back; a stream's
      stays with the segment, top-ups included; Sync releases the segment. */
  function OnFinish(lane: Lane, s: Session, o: Outcome): (Lane, Session)
    requires s.pc.Driving?
  {
    var acct := s.pc.acct;
    var back := Back(s, o);
    match s.pc.drive
    case QueryDrive => (Release(lane, acct.held), FinishQuery(back, acct, o))
    case ExecuteDrive => (lane, FinishStream(back.(seg := back.seg.(held := acct.held)), acct, o, false))
    case FlushDrive => (lane, FinishStream(back.(seg := back.seg.(held := acct.held)), acct, o, true))
    case SyncDrive => (Release(lane, acct.held), FinishSync(back.(seg := NO_SEGMENT), acct, o))
  }

  /** A panic recovered at the connection's own boundary
      (frontdoor/listener.go:858-884): only the deferred releases run. The query
      path and the streaming path defer theirs; the Sync path writes the topped-up
      figure back only after its call returns. */
  function OnPanic(lane: Lane, s: Session): (Lane, Session) {
    if !s.pc.Driving? then (lane, End(s))
    else
      var acct := s.pc.acct;
      match s.pc.drive
      case QueryDrive => (Release(lane, acct.held), End(s))
      case ExecuteDrive | FlushDrive => (lane, End(s.(seg := s.seg.(held := acct.held))))
      case SyncDrive =>
        (lane, End(s).(leaked := s.leaked + if acct.held > s.seg.held then acct.held - s.seg.held else 0))
  }

  /** The session loop has returned: its deferred release gives back what the
      segment holds. */
  function OnClose(lane: Lane, s: Session): (Lane, Session) {
    (Release(lane, s.seg.held), s.(pc := Ended, seg := s.seg.(held := 0)))
  }
}
