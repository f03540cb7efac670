/** That a session goes on, and gets its frames to the engine, unless something the
    protocol names stops it (frontdoor/session_loop.go:181-304, 576-807;
    frontdoor/session_extended.go:55-269, 409-471, 631-731). */
module SessionProgress {
  import opened Framing
  import opened GeneralLane
  import opened Accounting
  import opened Session
  import opened SessionLog
  import opened SessionInvariant

  // ---- the frames there are --------------------------------------------------------------

  /** The type byte, or bytes, a message goes by (section 54.7 of the PostgreSQL manual). */
  predicate GoesBy(m: Msg, c: char) {
    match m
    case Parse(_) => c == 'P'
    case Bind(_, _, _) => c == 'B'
    case Describe => c == 'D'
    case Close => c == 'C'
    case Execute => c == 'E'
    case Flush => c == 'H'
    case Sync => c == 'S'
    case Query => c == 'Q'
    case FunctionCall => c == 'F'
    case Copy => c == 'd' || c == 'c' || c == 'f'
    case Terminate => c == 'X'
    case Password => c == 'p'
  }

  ghost predicate SomeMessage(c: char) { exists m :: GoesBy(m, c) }

  /** What the byte says of the message. */
  function KindOf(m: Msg): Msg {
    match m
    case Parse(_) => Parse(0)
    case Bind(_, _, _) => Bind(0, 0, 0)
    case _ => m
  }

  /** A header is well typed exactly when some message goes by its byte, and then its kind
      is known before anything else of it is read: two messages with one byte are treated
      alike. */
  lemma TypesExactly(b: byte, m: Msg, n: Msg)
    ensures ValidFrontendType(b) <==> SomeMessage(b as char)
    ensures GoesBy(m, b as char) && GoesBy(n, b as char) ==> KindOf(m) == KindOf(n)
    ensures GoesBy(m, b as char) ==> (Extended(m) <==> b as char in ['P', 'B', 'D', 'E', 'C', 'H', 'S'])
  {
    if ValidFrontendType(b) {
      TypeIsSomeones(b);
    }
  }

  function SomeoneBy(c: char): Msg {
    match c
    case 'P' => Parse(0)
    case 'B' => Bind(0, 0, 0)
    case 'D' => Describe
    case 'C' => Close
    case 'E' => Execute
    case 'H' => Flush
    case 'S' => Sync
    case 'Q' => Query
    case 'F' => FunctionCall
    case 'X' => Terminate
    case 'p' => Password
    case _ => Copy
  }

  lemma TypeIsSomeones(b: byte)
    requires ValidFrontendType(b)
    ensures SomeMessage(b as char)
  {
    assert GoesBy(SomeoneBy(b as char), b as char);
  }

  // ---- a frame -------------------------------------------------------------------------

  /** The frame is not too large for the session, and arrives. */
  predicate Arrives(cfg: Config, s: Session, declared: nat, a: Answers) {
    s.pc.Waiting? && declared <= cfg.bodyCap + 4 && !a.readFails
  }

  /** Sync is always let in: while discarding, past the caps and on a full lane alike. It
      takes nothing of the lane, and draws on what its segment holds. */
  lemma SyncAlwaysServed(cfg: Config, lane: Lane, s: Session, declared: nat, a: Answers)
    requires Arrives(cfg, s, declared, a)
    ensures OnFrame(cfg, lane, s, Sync, declared, a) ==
              (lane, s.(pc := Driving(SyncDrive, Opened(s.seg.held)),
                        log := Then(Then(s.log, Received(Sync, false)), Engine(Sync, declared))))
  {
    var s' := Note(s, Received(Sync, false));
    assert Route(cfg, lane, s, Sync, declared, a) == (lane, StartDrive(s', Sync, declared));
  }

  /** A Query that finds room takes its working set, beside whatever its segment holds, and
      reaches the engine with it. */
  lemma QueryServed(cfg: Config, lane: Lane, s: Session, declared: nat, a: Answers)
    requires Arrives(cfg, s, declared, a) && !s.seg.discarding && lane.used + WorkingSet(cfg, lane) <= lane.limit
    ensures OnFrame(cfg, lane, s, Query, declared, a) ==
              (lane.(used := lane.used + WorkingSet(cfg, lane)),
               s.(pc := Driving(QueryDrive, Opened(WorkingSet(cfg, lane))),
                  log := Then(Then(s.log, Received(Query, false)), Engine(Query, declared))))
  {
    var s' := Note(s, Received(Query, false));
    assert Route(cfg, lane, s, Query, declared, a) == StartQuery(cfg, lane, s', declared, a);
  }

  /** The segment with a frame's two charges on it. */
  function BothCharges(seg: Segment, m: Msg, declared: nat): Segment {
    seg.(msgs := seg.msgs + 1, bytes := seg.bytes + declared + SegmentDecodedDelta(m))
  }

  predicate InSegment(m: Msg) { Extended(m) && !m.Sync? }

  /** The working set is there already, or the lane has room for it. A Flush needs none. */
  predicate HasRoom(cfg: Config, lane: Lane, seg: Segment, m: Msg) {
    m.Flush? || seg.held > 0 || lane.used + WorkingSet(cfg, lane) <= lane.limit
  }

  /** The engine was asked for the frame, and the session goes on unless the frame is
      refused for good or the client cannot be told. */
  predicate Served(s: Session, t: Session, m: Msg, charge: nat, a: Answers) {
    && IsPrefix(Then(s.log, Engine(m, charge)), t.log)
    && t.seg.msgs == s.seg.msgs && t.seg.bytes == s.seg.bytes
    && (m.Execute? ==> t.pc == Driving(ExecuteDrive, Opened(t.seg.held)) && t.seg.ran)
    && (m.Flush? ==> t.pc == Driving(FlushDrive, Opened(s.seg.held)) && t.seg.held == s.seg.held)
    && (!Streams(m) && a.reply.Accepted? ==> t.pc.Waiting? && !t.seg.discarding)
    && (!Streams(m) && a.reply.Refused? && !a.writeFails ==> t.pc.Waiting? && t.seg.discarding)
  }

  /** The frame is one the caps still allow for, and so are its bytes. */
  predicate Fits(cfg: Config, s: Session, m: Msg, declared: nat) {
    && s.seg.msgs + 1 <= cfg.messageCap
    && s.seg.bytes + declared + SegmentDecodedDelta(m) <= cfg.byteCap
  }

  lemma ChargesAdd(cfg: Config, s: Session, m: Msg, declared: nat)
    requires ValidConfig(cfg) && s.seg.bytes <= cfg.byteCap && declared <= cfg.bodyCap + 4 && Decodable(m)
    ensures var one := AddBytes(s.seg.(msgs := s.seg.msgs + 1), declared);
            && AddBytes(one, SegmentDecodedDelta(m)) == BothCharges(s.seg, m, declared)
            && (WithinCaps(cfg, BothCharges(s.seg, m, declared)) ==> WithinCaps(cfg, one))
  {
    assert SegmentDecodedDelta(m) <= MAX_DELTA;
  }

  /** The session with the frame received and both its charges made. */
  function ChargedFor(s: Session, m: Msg, declared: nat): Session {
    Note(s, Received(m, false)).(seg := BothCharges(s.seg, m, declared))
  }

  /** A segment frame that passes the first of the two checks goes on to the second. */
  lemma FrameRuns(cfg: Config, lane: Lane, s: Session, m: Msg, declared: nat, a: Answers)
    requires ValidConfig(cfg) && s.seg.bytes <= cfg.byteCap && Arrives(cfg, s, declared, a)
    requires InSegment(m) && Decodable(m) && !s.seg.discarding
    requires WithinCaps(cfg, AddBytes(s.seg.(msgs := s.seg.msgs + 1), declared))
    ensures OnFrame(cfg, lane, s, m, declared, a) ==
              RunCharged(cfg, lane, ChargedFor(s, m, declared), m, declared + SegmentDecodedDelta(m), a)
  {
    ChargesAdd(cfg, s, m, declared);
    var admitted := s.(seg := AddBytes(s.seg.(msgs := s.seg.msgs + 1), declared));
    assert AdmitSegmentFrame(cfg, s, m, declared, a) == Admit(admitted);
  }

  /** A segment frame within both caps that finds room reaches the engine, charged for
      what was declared and for what its decoding allocates. */
  lemma SegmentFrameServed(cfg: Config, lane: Lane, s: Session, m: Msg, declared: nat, a: Answers)
    requires ValidConfig(cfg) && SessionOk(cfg, lane.limit, s) && Arrives(cfg, s, declared, a)
    requires InSegment(m) && Decodable(m) && !s.seg.discarding
    requires Fits(cfg, s, m, declared) && HasRoom(cfg, lane, s.seg, m)
    ensures Served(ChargedFor(s, m, declared), OnFrame(cfg, lane, s, m, declared, a).1, m,
                   declared + SegmentDecodedDelta(m), a)
  {
    ChargesAdd(cfg, s, m, declared);
    FrameRuns(cfg, lane, s, m, declared, a);
    ChargedServed(cfg, lane, ChargedFor(s, m, declared), m, declared + SegmentDecodedDelta(m), a);
  }

  lemma ChargedServed(cfg: Config, lane: Lane, s: Session, m: Msg, charge: nat, a: Answers)
    requires WithinCaps(cfg, s.seg) && HasRoom(cfg, lane, s.seg, m) && InSegment(m)
    requires s.pc.Waiting? && !s.seg.discarding
    ensures Served(s, RunCharged(cfg, lane, s, m, charge, a).1, m, charge, a)
  {
    if m.Flush? {
      assert IsPrefix(Then(s.log, Engine(m, charge)), Then(s.log, Engine(m, charge)));
    } else {
      CallServed(cfg, lane, s, m, charge, a);
    }
  }

  lemma CallServed(cfg: Config, lane: Lane, s: Session, m: Msg, charge: nat, a: Answers)
    requires HasRoom(cfg, lane, s.seg, m) && InSegment(m) && !m.Flush? && s.pc.Waiting? && !s.seg.discarding
    ensures Served(s, ReserveAndCall(cfg, lane, s, m, charge, a).1, m, charge, a)
  {
    var s2 := if m.Execute? then s.(seg := s.seg.(ran := true)) else s;
    var (_, seg', ok) := ReserveSegment(cfg, lane, s2.seg);
    assert ok;
    var called := Note(s2.(seg := seg'), Engine(m, charge));
    var answered := Note(called, Answered(m, !a.reply.Accepted?, false));
    assert IsPrefix(called.log, called.log) && IsPrefix(called.log, answered.log);
    assert IsPrefix(called.log, TellError(answered).log);
  }

  /** A frame arms the discard exactly when it takes the segment past its caps, or the
      engine refuses it. */
  lemma FrameArmsExactly(cfg: Config, lane: Lane, s: Session, m: Msg, declared: nat, a: Answers)
    requires ValidConfig(cfg) && SessionOk(cfg, lane.limit, s) && s.pc.Waiting? && !s.seg.discarding && Decodable(m)
    requires OnFrame(cfg, lane, s, m, declared, a).1.pc.Waiting?
    ensures OnFrame(cfg, lane, s, m, declared, a).1.seg.discarding <==>
              InSegment(m) && (!Fits(cfg, s, m, declared) || !a.reply.Accepted?)
  {
    if InSegment(m) {
      SegmentFrameArms(cfg, lane, s, m, declared, a);
    } else {
      OtherArmsNothing(cfg, lane, s, m, declared, a);
    }
  }

  lemma SegmentFrameArms(cfg: Config, lane: Lane, s: Session, m: Msg, declared: nat, a: Answers)
    requires ValidConfig(cfg) && s.seg.bytes <= cfg.byteCap && s.pc.Waiting? && !s.seg.discarding && Decodable(m)
    requires InSegment(m) && OnFrame(cfg, lane, s, m, declared, a).1.pc.Waiting?
    ensures OnFrame(cfg, lane, s, m, declared, a).1.seg.discarding <==> !Fits(cfg, s, m, declared) || !a.reply.Accepted?
  {
    GoesOnInSize(cfg, lane, s, m, declared, a);
    ChargesAdd(cfg, s, m, declared);
    if WithinCaps(cfg, AddBytes(s.seg.(msgs := s.seg.msgs + 1), declared)) {
      FrameRuns(cfg, lane, s, m, declared, a);
      ChargedArms(cfg, lane, ChargedFor(s, m, declared), m, declared + SegmentDecodedDelta(m), a);
    }
  }

  lemma GoesOnInSize(cfg: Config, lane: Lane, s: Session, m: Msg, declared: nat, a: Answers)
    requires InSegment(m) && !s.seg.discarding && OnFrame(cfg, lane, s, m, declared, a).1.pc.Waiting?
    ensures declared <= cfg.bodyCap + 4
    ensures WithinCaps(cfg, AddBytes(s.seg.(msgs := s.seg.msgs + 1), declared)) ==> !a.readFails
  {
  }

  lemma ChargedArms(cfg: Config, lane: Lane, s: Session, m: Msg, charge: nat, a: Answers)
    requires InSegment(m) && !s.seg.discarding && RunCharged(cfg, lane, s, m, charge, a).1.pc.Waiting?
    ensures RunCharged(cfg, lane, s, m, charge, a).1.seg.discarding <==> !WithinCaps(cfg, s.seg) || !a.reply.Accepted?
  {
  }

  lemma OtherArmsNothing(cfg: Config, lane: Lane, s: Session, m: Msg, declared: nat, a: Answers)
    requires !InSegment(m) && !s.seg.discarding && s.pc.Waiting?
    requires OnFrame(cfg, lane, s, m, declared, a).1.pc.Waiting?
    ensures !OnFrame(cfg, lane, s, m, declared, a).1.seg.discarding
  {
    assert OnFrame(cfg, lane, s, m, declared, a) == Route(cfg, lane, s, m, declared, a);
  }

  /** The first of the two checks lets the frame in, so its body is read. */
  predicate LetIn(cfg: Config, s: Session, m: Msg, declared: nat) {
    InSegment(m) ==> !s.seg.discarding && WithinCaps(cfg, AddBytes(s.seg.(msgs := s.seg.msgs + 1), declared))
  }

  predicate NoRoom(cfg: Config, lane: Lane) { lane.used + WorkingSet(cfg, lane) > lane.limit }

  /** What a segment frame that arrives can end its session by. */
  predicate SegmentFrameEnds(cfg: Config, lane: Lane, s: Session, m: Msg, declared: nat, a: Answers) {
    if s.seg.discarding then m.Flush? && a.writeFails
    else if !Fits(cfg, s, m, declared) then a.writeFails
    else if !HasRoom(cfg, lane, s.seg, m) then true
    else !Streams(m) && (a.reply.RefusedFatally? || (a.reply.Refused? && a.writeFails))
  }

  /** And any other frame. */
  predicate OtherFrameEnds(cfg: Config, lane: Lane, s: Session, m: Msg, a: Answers) {
    var unready := !a.statusKnown || a.readyWriteFails;
    match m
    case Terminate => true
    case Copy | Password => !s.seg.discarding
    case FunctionCall => !s.seg.discarding && unready
    case Query => !s.seg.discarding && NoRoom(cfg, lane) && (a.writeFails || unready)
    case _ => false
  }

  /** A frame ends its session if and only if it is too large, or its body is to be read
      and the read fails, or it ends it by what it is. */
  lemma FrameEndsExactly(cfg: Config, lane: Lane, s: Session, m: Msg, declared: nat, a: Answers)
    requires ValidConfig(cfg) && SessionOk(cfg, lane.limit, s) && s.pc.Waiting? && Decodable(m)
    ensures OnFrame(cfg, lane, s, m, declared, a).1.pc.Ending? <==>
              || declared > cfg.bodyCap + 4
              || (LetIn(cfg, s, m, declared) && a.readFails)
              || (InSegment(m) && SegmentFrameEnds(cfg, lane, s, m, declared, a))
              || (!InSegment(m) && OtherFrameEnds(cfg, lane, s, m, a))
  {
    if InSegment(m) {
      SegmentEndsExactly(cfg, lane, s, m, declared, a);
    } else {
      OtherEndsExactly(cfg, lane, s, m, declared, a);
    }
  }

  /** A segment frame that is not let in: dropped by a discarding segment, or refused by
      one it takes past its caps. */
  lemma KeptOut(cfg: Config, lane: Lane, s: Session, m: Msg, declared: nat, a: Answers)
    requires InSegment(m) && declared <= cfg.bodyCap + 4 && !LetIn(cfg, s, m, declared)
    ensures OnFrame(cfg, lane, s, m, declared, a).1 ==
              if !s.seg.discarding then
                RefuseOverCaps(s.(seg := AddBytes(s.seg.(msgs := s.seg.msgs + 1), declared)), m, a.writeFails)
              else if m.Flush? && a.writeFails then End(s)
              else Note(s.(seg := s.seg.(ran := s.seg.ran && !m.Flush?)), Received(m, true))
  {
  }

  lemma SegmentEndsExactly(cfg: Config, lane: Lane, s: Session, m: Msg, declared: nat, a: Answers)
    requires ValidConfig(cfg) && (!s.seg.discarding ==> s.seg.bytes <= cfg.byteCap)
    requires s.pc.Waiting? && Decodable(m) && InSegment(m)
    ensures OnFrame(cfg, lane, s, m, declared, a).1.pc.Ending? <==>
              || declared > cfg.bodyCap + 4
              || (LetIn(cfg, s, m, declared) && a.readFails)
              || SegmentFrameEnds(cfg, lane, s, m, declared, a)
  {
    if declared > cfg.bodyCap + 4 {
      TooLargeEnds(cfg, lane, s, m, declared, a);
    } else if !LetIn(cfg, s, m, declared) {
      KeptOutEnds(cfg, lane, s, m, declared, a);
    } else if a.readFails {
      ReadEnds(cfg, lane, s, m, declared, a);
    } else {
      LetInEnds(cfg, lane, s, m, declared, a);
    }
  }

  lemma TooLargeEnds(cfg: Config, lane: Lane, s: Session, m: Msg, declared: nat, a: Answers)
    requires declared > cfg.bodyCap + 4
    ensures OnFrame(cfg, lane, s, m, declared, a).1.pc.Ending?
  {
  }

  lemma KeptOutEnds(cfg: Config, lane: Lane, s: Session, m: Msg, declared: nat, a: Answers)
    requires ValidConfig(cfg) && (!s.seg.discarding ==> s.seg.bytes <= cfg.byteCap) && s.pc.Waiting? && Decodable(m)
    requires InSegment(m) && declared <= cfg.bodyCap + 4 && !LetIn(cfg, s, m, declared)
    ensures OnFrame(cfg, lane, s, m, declared, a).1.pc.Ending? <==> SegmentFrameEnds(cfg, lane, s, m, declared, a)
  {
    KeptOut(cfg, lane, s, m, declared, a);
    if !s.seg.discarding {
      ChargesAdd(cfg, s, m, declared);
    }
  }

  lemma LetInEnds(cfg: Config, lane: Lane, s: Session, m: Msg, declared: nat, a: Answers)
    requires ValidConfig(cfg) && s.seg.bytes <= cfg.byteCap && Arrives(cfg, s, declared, a) && Decodable(m)
    requires InSegment(m) && LetIn(cfg, s, m, declared)
    ensures OnFrame(cfg, lane, s, m, declared, a).1.pc.Ending? <==> SegmentFrameEnds(cfg, lane, s, m, declared, a)
  {
    ChargesAdd(cfg, s, m, declared);
    FrameRuns(cfg, lane, s, m, declared, a);
    ChargedEnds(cfg, lane, ChargedFor(s, m, declared), m, declared + SegmentDecodedDelta(m), a);
  }

  lemma ReadEnds(cfg: Config, lane: Lane, s: Session, m: Msg, declared: nat, a: Answers)
    requires InSegment(m) && LetIn(cfg, s, m, declared) && a.readFails
    ensures OnFrame(cfg, lane, s, m, declared, a).1.pc.Ending?
  {
  }

  lemma ChargedEnds(cfg: Config, lane: Lane, s: Session, m: Msg, charge: nat, a: Answers)
    requires InSegment(m) && s.pc.Waiting?
    ensures RunCharged(cfg, lane, s, m, charge, a).1.pc.Ending? <==>
              if !WithinCaps(cfg, s.seg) then a.writeFails
              else if !HasRoom(cfg, lane, s.seg, m) then true
              else !Streams(m) && (a.reply.RefusedFatally? || (a.reply.Refused? && a.writeFails))
  {
  }

  lemma OtherEndsExactly(cfg: Config, lane: Lane, s: Session, m: Msg, declared: nat, a: Answers)
    requires !InSegment(m) && s.pc.Waiting?
    ensures OnFrame(cfg, lane, s, m, declared, a).1.pc.Ending? <==>
              declared > cfg.bodyCap + 4 || a.readFails || OtherFrameEnds(cfg, lane, s, m, a)
  {
    if declared <= cfg.bodyCap + 4 && !a.readFails {
      assert OnFrame(cfg, lane, s, m, declared, a) == Route(cfg, lane, s, m, declared, a);
    }
  }

  // ---- what the client is told -------------------------------------------------------------

  /** How many errors of its own the front door has sent, how often it has asked the engine
      for the status, and how often it has sent readiness. */
  datatype Said = Said(errors: nat, statuses: nat, readies: nat)

  function SaidIn(l: Log): Said {
    match l
    case Nothing => Said(0, 0, 0)
    case Then(b, e) =>
      var s := SaidIn(b);
      if e.ErrorSent? then s.(errors := s.errors + 1)
      else if e.StatusRead? then s.(statuses := s.statuses + 1)
      else if e.Ready? then s.(readies := s.readies + 1)
      else s
  }

  /** That much more was said. */
  predicate Adds(before: Log, after: Log, error: bool, status: bool, ready: bool) {
    var s := SaidIn(before);
    SaidIn(after) == Said(s.errors + (if error then 1 else 0), s.statuses + (if status then 1 else 0),
                          s.readies + if ready then 1 else 0)
  }

  lemma ReadinessSays(s: Session, known: bool, writeFails: bool)
    ensures Adds(s.log, SendReadinessWith(s, writeFails).log, false, false, true)
    ensures known ==> Adds(s.log, SendReadiness(s, known, writeFails).log, false, true, true)
  {
    var asked := Note(s, StatusRead);
    assert Adds(s.log, asked.log, false, true, false);
    assert Adds(asked.log, Note(asked, Ready).log, false, false, true);
  }

  lemma ErrorThen(s: Session, t: Log, status: bool, ready: bool)
    requires Adds(TellError(s).log, t, false, status, ready)
    ensures Adds(s.log, t, true, status, ready)
  {
    assert Adds(s.log, TellError(s).log, true, false, false);
  }

  lemma RefusalSays(s: Session, fatal: bool, writeFails: bool)
    ensures var t := FrameExtendedError(s, fatal, writeFails);
            !t.pc.Ending? ==> Adds(s.log, t.log, true, false, false)
  {
  }

  lemma ReportSays(s: Session, o: Outcome, ownsTerminal: bool)
    ensures var t := ReportOutputWithheld(s, o, ownsTerminal);
            !t.pc.Ending? ==> Adds(s.log, t.log, true, !o.reported, ownsTerminal)
  {
    var s' := if o.reported then s else Note(s, StatusRead);
    assert Adds(s.log, s'.log, false, !o.reported, false);
    assert Adds(s'.log, TellError(s').log, true, false, false);
    ReadinessSays(TellError(s'), true, o.readyWriteFails);
  }

  /** A frame the front door answers with an error of its own, and one it answers with
      readiness at once. */
  predicate FrameTold(cfg: Config, lane: Lane, s: Session, m: Msg, declared: nat, a: Answers) {
    || FrameAnswered(cfg, lane, s, m)
    || (!s.seg.discarding && InSegment(m) && (!Fits(cfg, s, m, declared) || (!Streams(m) && !a.reply.Accepted?)))
  }

  predicate FrameAnswered(cfg: Config, lane: Lane, s: Session, m: Msg) {
    !s.seg.discarding && (m.FunctionCall? || (m.Query? && NoRoom(cfg, lane)))
  }

  /** A session that goes on after a frame has told its client of it exactly once if there
      was something to tell, with the readiness the frame is owed if the engine is not to
      send it, and has said nothing otherwise. */
  lemma FrameToldExactly(cfg: Config, lane: Lane, s: Session, m: Msg, declared: nat, a: Answers)
    requires ValidConfig(cfg) && SessionOk(cfg, lane.limit, s) && s.pc.Waiting? && Decodable(m)
    requires !OnFrame(cfg, lane, s, m, declared, a).1.pc.Ending?
    ensures Adds(s.log, OnFrame(cfg, lane, s, m, declared, a).1.log, FrameTold(cfg, lane, s, m, declared, a),
                 FrameAnswered(cfg, lane, s, m), FrameAnswered(cfg, lane, s, m))
  {
    FrameEndsExactly(cfg, lane, s, m, declared, a);
    if InSegment(m) {
      SegmentTold(cfg, lane, s, m, declared, a);
    } else {
      OtherTold(cfg, lane, s, m, declared, a);
    }
  }

  lemma OtherTold(cfg: Config, lane: Lane, s: Session, m: Msg, declared: nat, a: Answers)
    requires !InSegment(m) && !OnFrame(cfg, lane, s, m, declared, a).1.pc.Ending? && s.pc.Waiting?
    ensures Adds(s.log, OnFrame(cfg, lane, s, m, declared, a).1.log, FrameAnswered(cfg, lane, s, m),
                 FrameAnswered(cfg, lane, s, m), FrameAnswered(cfg, lane, s, m))
  {
    assert OnFrame(cfg, lane, s, m, declared, a) == Route(cfg, lane, s, m, declared, a);
    var s' := Note(s, Received(m, s.seg.discarding && !m.Sync? && !m.Terminate?));
    assert SaidIn(s'.log) == SaidIn(s.log);
    if FrameAnswered(cfg, lane, s, m) {
      var t := SendReadiness(TellError(s'), a.statusKnown, a.readyWriteFails);
      assert OnFrame(cfg, lane, s, m, declared, a).1 == t;
      ReadinessSays(TellError(s'), a.statusKnown, a.readyWriteFails);
      ErrorThen(s', t.log, true, true);
    } else if m.Query? && !s.seg.discarding {
      assert Route(cfg, lane, s, m, declared, a) == StartQuery(cfg, lane, s', declared, a);
    }
  }

  lemma SegmentTold(cfg: Config, lane: Lane, s: Session, m: Msg, declared: nat, a: Answers)
    requires ValidConfig(cfg) && (!s.seg.discarding ==> s.seg.bytes <= cfg.byteCap)
    requires s.pc.Waiting? && Decodable(m) && InSegment(m)
    requires declared <= cfg.bodyCap + 4 && !(LetIn(cfg, s, m, declared) && a.readFails)
    requires !OnFrame(cfg, lane, s, m, declared, a).1.pc.Ending?
    ensures Adds(s.log, OnFrame(cfg, lane, s, m, declared, a).1.log, FrameTold(cfg, lane, s, m, declared, a),
                 false, false)
  {
    if !LetIn(cfg, s, m, declared) {
      KeptOut(cfg, lane, s, m, declared, a);
      if !s.seg.discarding {
        ChargesAdd(cfg, s, m, declared);
        var counted := s.(seg := AddBytes(s.seg.(msgs := s.seg.msgs + 1), declared));
        RefusalSays(Note(counted, OverCaps(m)), false, a.writeFails);
      }
    } else {
      ChargesAdd(cfg, s, m, declared);
      FrameRuns(cfg, lane, s, m, declared, a);
      ChargedTold(cfg, lane, ChargedFor(s, m, declared), m, declared + SegmentDecodedDelta(m), a);
    }
  }

  lemma ChargedTold(cfg: Config, lane: Lane, s: Session, m: Msg, charge: nat, a: Answers)
    requires InSegment(m) && !RunCharged(cfg, lane, s, m, charge, a).1.pc.Ending? && s.pc.Waiting?
    ensures Adds(s.log, RunCharged(cfg, lane, s, m, charge, a).1.log,
                 !WithinCaps(cfg, s.seg) || (!Streams(m) && !a.reply.Accepted?), false, false)
  {
    if !WithinCaps(cfg, s.seg) {
      RefusalSays(Note(s, OverCaps(m)), false, a.writeFails);
    } else if !m.Flush? {
      var s2 := if m.Execute? then s.(seg := s.seg.(ran := true)) else s;
      var called := Note(s2.(seg := ReserveSegment(cfg, lane, s2.seg).1), Engine(m, charge));
      var answered := Note(called, Answered(m, !a.reply.Accepted?, false));
      assert SaidIn(answered.log) == SaidIn(called.log) == SaidIn(s.log);
      RefusalSays(answered, a.reply.RefusedFatally?, a.writeFails);
    }
  }

  // ---- what a frame is charged for ---------------------------------------------------------

  const SLICE_HEADER := 24
  const STRING_HEADER := 16
  const OID := 4
  const FORMAT_CODE := 2

  function Copies(n: nat, each: nat): seq<nat> { seq(n, _ => each) }

  function Sum(xs: seq<nat>): nat { if xs == [] then 0 else xs[0] + Sum(xs[1..]) }

  /** What decoding the frame allocates beside its bytes, piece by piece: its names, and
      one piece for every parameter, type and format code in it. */
  function Allocations(m: Msg): seq<nat> {
    match m
    case Parse(oids) => Copies(2, STRING_HEADER) + Copies(oids, OID)
    case Bind(ps, pf, rf) =>
      Copies(2, STRING_HEADER) + Copies(ps, SLICE_HEADER) + (Copies(pf, FORMAT_CODE) + Copies(rf, FORMAT_CODE))
    case Describe | Close | Execute => Copies(1, STRING_HEADER)
    case _ => []
  }

  lemma {:induction false} SumCopies(n: nat, each: nat)
    ensures Sum(Copies(n, each)) == n * each
  {
    if n > 0 {
      assert Copies(n, each)[1..] == Copies(n - 1, each);
      SumCopies(n - 1, each);
    }
  }

  lemma {:induction false} SumConcat(a: seq<nat>, b: seq<nat>)
    ensures Sum(a + b) == Sum(a) + Sum(b)
    decreases |a|
  {
    if a == [] {
      assert a + b == b;
    } else {
      assert (a + b)[1..] == a[1..] + b;
      SumConcat(a[1..], b);
    }
  }

  /** A frame is charged for every piece its decoding allocates, down to the empty ones. */
  lemma ChargedForEverything(m: Msg)
    ensures SegmentDecodedDelta(m) == Sum(Allocations(m))
  {
    SumCopies(2, STRING_HEADER);
    SumCopies(1, STRING_HEADER);
    match m
    case Parse(oids) =>
      SumConcat(Copies(2, STRING_HEADER), Copies(oids, OID));
      SumCopies(oids, OID);
    case Bind(ps, pf, rf) =>
      SumConcat(Copies(2, STRING_HEADER) + Copies(ps, SLICE_HEADER), Copies(pf, FORMAT_CODE) + Copies(rf, FORMAT_CODE));
      SumConcat(Copies(2, STRING_HEADER), Copies(ps, SLICE_HEADER));
      SumConcat(Copies(pf, FORMAT_CODE), Copies(rf, FORMAT_CODE));
      SumCopies(ps, SLICE_HEADER);
      SumCopies(pf, FORMAT_CODE);
      SumCopies(rf, FORMAT_CODE);
    case _ =>
  }

  // ---- the engine's answer ---------------------------------------------------------------

  /** Output was withheld: the report speaks for whatever else went wrong. */
  predicate Cut(acct: Account) { acct.withheld != OutputComplete }

  /** The cycle ends with a readiness byte. */
  predicate ReadyDue(d: Drive, acct: Account, o: Outcome) {
    match d
    case QueryDrive => true
    case SyncDrive => Cut(acct) || !o.failed || (o.deferred && o.statusKnown)
    case _ => false
  }

  /** A status has to be known: to report withheld output, and for a readiness byte. */
  predicate StatusDue(d: Drive, acct: Account, o: Outcome) { Cut(acct) || ReadyDue(d, acct, o) }

  /** Something is written before that: the report, a refusal inside a segment, or the
      output that a Flush collects. */
  predicate WriteDue(d: Drive, acct: Account, o: Outcome) {
    Cut(acct) || (!d.QueryDrive? && o.failed) || (d.FlushDrive? && !o.failed)
  }

  /** The session ends with an engine call if and only if its output could not be written
      or framed, the refusal is fatal, a status that is due is none, or a write that is
      due fails. */
  lemma CallEndsSessionExactly(lane: Lane, s: Session, o: Outcome)
    requires s.pc.Driving?
    ensures var d, acct := s.pc.drive, s.pc.acct;
            OnFinish(lane, s, o).1.pc.Ending? <==>
              || (!Cut(acct) && (acct.writeFailed || acct.unframeable))
              || (!Cut(acct) && o.failed && o.fatal)
              || (StatusDue(d, acct, o) && !o.statusKnown)
              || (WriteDue(d, acct, o) && o.writeFails)
              || (ReadyDue(d, acct, o) && o.readyWriteFails)
    ensures !OnFinish(lane, s, o).1.pc.Ending? ==> OnFinish(lane, s, o).1.pc.Waiting?
  {
    var acct, back := s.pc.acct, Back(s, o);
    match s.pc.drive
    case QueryDrive => assert OnFinish(lane, s, o).1 == FinishQuery(back, acct, o);
    case ExecuteDrive =>
      assert OnFinish(lane, s, o).1 == FinishStream(back.(seg := back.seg.(held := acct.held)), acct, o, false);
    case FlushDrive =>
      assert OnFinish(lane, s, o).1 == FinishStream(back.(seg := back.seg.(held := acct.held)), acct, o, true);
    case SyncDrive => assert OnFinish(lane, s, o).1 == FinishSync(back.(seg := NO_SEGMENT), acct, o);
  }

  /** The status is read for a call: to report withheld output, unless the engine did, and
      for the readiness of a Query that failed. */
  predicate Asked(d: Drive, acct: Account, o: Outcome) {
    if Cut(acct) then !o.reported else d.QueryDrive? && o.failed
  }

  /** A session that goes on after an engine call has told its client exactly once that
      output was withheld or the call failed, and nothing if neither is so; it has sent the
      readiness that is due, and read the status only where it had to. */
  lemma CallToldExactly(lane: Lane, s: Session, o: Outcome)
    requires s.pc.Driving? && !OnFinish(lane, s, o).1.pc.Ending?
    ensures var d, acct := s.pc.drive, s.pc.acct;
            Adds(s.log, OnFinish(lane, s, o).1.log, Cut(acct) || o.failed, Asked(d, acct, o), ReadyDue(d, acct, o))
  {
    var acct, back := s.pc.acct, Back(s, o);
    var kept := back.(seg := back.seg.(held := acct.held));
    assert SaidIn(back.log) == SaidIn(s.log);
    match s.pc.drive
    case QueryDrive => QueryTold(back, acct, o);
    case ExecuteDrive => StreamTold(kept, acct, o, ExecuteDrive);
    case FlushDrive => StreamTold(kept, acct, o, FlushDrive);
    case SyncDrive => SyncTold(back.(seg := NO_SEGMENT), acct, o);
  }

  lemma QueryTold(s: Session, acct: Account, o: Outcome)
    requires !FinishQuery(s, acct, o).pc.Ending?
    ensures Adds(s.log, FinishQuery(s, acct, o).log, Cut(acct) || o.failed, Asked(QueryDrive, acct, o), true)
  {
    if Cut(acct) {
      ReportSays(s, o, true);
    } else if o.failed {
      ReadinessSays(TellError(s), o.statusKnown, o.readyWriteFails);
      ErrorThen(s, FinishQuery(s, acct, o).log, true, true);
    } else {
      ReadinessSays(s, o.statusKnown, o.readyWriteFails);
    }
  }

  lemma StreamTold(s: Session, acct: Account, o: Outcome, d: Drive)
    requires StreamDrive(d) && !FinishStream(s, acct, o, d.FlushDrive?).pc.Ending?
    ensures Adds(s.log, FinishStream(s, acct, o, d.FlushDrive?).log, Cut(acct) || o.failed, Asked(d, acct, o), false)
  {
    ReportSays(s, o, false);
    RefusalSays(s, o.fatal, o.writeFails);
  }

  lemma SyncTold(s: Session, acct: Account, o: Outcome)
    requires !FinishSync(s, acct, o).pc.Ending?
    ensures Adds(s.log, FinishSync(s, acct, o).log, Cut(acct) || o.failed, Asked(SyncDrive, acct, o),
                 ReadyDue(SyncDrive, acct, o))
  {
    if Cut(acct) {
      ReportSays(s, o, true);
    } else if o.failed && o.deferred && o.statusKnown {
      ReadinessSays(TellError(s), true, o.readyWriteFails);
      ErrorThen(s, FinishSync(s, acct, o).log, false, true);
    } else if o.failed {
      RefusalSays(s, o.fatal, o.writeFails);
    } else {
      ReadinessSays(s, true, o.readyWriteFails);
    }
  }
}
