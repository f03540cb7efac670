/** What a session's log must look like, stated on the log alone: who answers
    with readiness, what is quiet while a segment is discarded, what a segment
    may dispatch. */
module SessionLog {
  import opened Session

  // ---- Readiness -----------------------------------------------------------------

  datatype Cycle = NoCycle | OpenCycle(m: Msg, dropped: bool)

  /** The frame received last. */
  function Current(l: Log): Cycle {
    match l
    case Nothing => NoCycle
    case Then(b, Received(m, d)) => OpenCycle(m, d)
    case Then(b, _) => Current(b)
  }

  /** How many ReadyForQuery frames followed it. */
  function OpenReadies(l: Log): nat {
    match l
    case Nothing => 0
    case Then(b, Received(_, _)) => 0
    case Then(b, Ready) => OpenReadies(b) + 1
    case Then(b, _) => OpenReadies(b)
  }

  /** The last frame has had the readiness a living session owes it: exactly one
      for a Query or a FunctionCall that was not discarded, at most one for a
      Sync, none for anything else. */
  predicate Settled(l: Log) {
    match Current(l)
    case NoCycle => OpenReadies(l) == 0
    case OpenCycle(m, dropped) =>
      if dropped then OpenReadies(l) == 0
      else if m.Query? || m.FunctionCall? then OpenReadies(l) == 1
      else if m.Sync? then OpenReadies(l) <= 1
      else OpenReadies(l) == 0
  }

  predicate MayReady(l: Log) {
    Current(l).OpenCycle? && OwesReady(Current(l).m) && !Current(l).dropped && OpenReadies(l) == 0
  }

  /** Every cycle that a later frame closed was settled, and readiness is only
      ever sent to a cycle that owes it and has not had it. */
  predicate CyclesOk(l: Log) {
    match l
    case Nothing => true
    case Then(b, Received(_, _)) => CyclesOk(b) && Settled(b)
    case Then(b, Ready) => CyclesOk(b) && MayReady(b)
    case Then(b, _) => CyclesOk(b)
  }

  function Readies(l: Log): nat {
    match l
    case Nothing => 0
    case Then(b, e) => Readies(b) + if e.Ready? then 1 else 0
  }

  function Owed(l: Log): nat {
    match l
    case Nothing => 0
    case Then(b, e) => Owed(b) + if e.Received? && OwesReady(e.m) then 1 else 0
  }

  predicate IsPrefix(p: Log, l: Log) {
    p == l || (l.Then? && IsPrefix(p, l.before))
  }

  lemma {:induction false} ReadiesWithin(l: Log)
    requires CyclesOk(l)
    ensures Readies(l) + (if MayReady(l) then 1 else 0) <= Owed(l)
  {
    if l.Then? {
      ReadiesWithin(l.before);
    }
  }

  /** At every prefix, ReadyForQuery frames never outnumber the Query,
      FunctionCall and Sync frames received. */
  lemma {:induction false} ReadyNeverOutnumbers(l: Log, p: Log)
    requires CyclesOk(l) && IsPrefix(p, l)
    ensures Readies(p) <= Owed(p)
  {
    if p == l {
      ReadiesWithin(l);
    } else {
      ReadyNeverOutnumbers(l.before, p);
    }
  }

  // ---- What a cycle has come to -----------------------------------------------------

  /** Since the last frame was received: was the engine asked, did it answer without
      failing, was every message it emitted passed on, did one carry the target's error,
      was the client sent an error of the front door's own. */
  datatype Tally = Tally(asked: bool, sound: bool, whole: bool, erred: bool, told: bool)

  const NEW_TALLY := Tally(false, false, true, false, false)

  function Since(l: Log): Tally {
    match l
    case Nothing => NEW_TALLY
    case Then(b, Received(_, _)) => NEW_TALLY
    case Then(b, Engine(_, _)) => Since(b).(asked := true)
    case Then(b, Emitted(_, e, forwarded)) =>
      Since(b).(whole := Since(b).whole && forwarded, erred := Since(b).erred || e.isError)
    case Then(b, Answered(_, failed, _)) => Since(b).(sound := !failed)
    case Then(b, ErrorSent) => Since(b).(told := true)
    case Then(b, _) => Since(b)
  }

  /** Readiness without an error of the front door's own means that the engine ran the
      frame, did not fail, and everything it emitted was passed on. */
  predicate Honest(l: Log) {
    match l
    case Nothing => true
    case Then(b, e) => Honest(b) && (e.Ready? ==> Since(b).told || (Since(b).asked && Since(b).sound && Since(b).whole))
  }

  lemma {:induction false} HonestAtPrefix(l: Log, b: Log)
    requires Honest(l) && IsPrefix(Then(b, Ready), l)
    ensures Since(b).told || (Since(b).asked && Since(b).sound && Since(b).whole)
  {
    if l != Then(b, Ready) {
      HonestAtPrefix(l.before, b);
    }
  }

  // ---- Discard through Sync ---------------------------------------------------------

  /** The frames whose answers the engine streams before a Sync. */
  predicate Streams(m: Msg) { m.Execute? || m.Flush? }

  /** The last event calls for a discard: the target's error, or a message not passed
      on, during a stream; an extended frame's failed answer, unless a Sync's was
      deferred or followed a message not passed on; a segment past its caps. */
  predicate Trouble(l: Log) {
    match l
    case Then(b, Emitted(m, e, forwarded)) => Streams(m) && (e.isError || !forwarded)
    case Then(b, Answered(m, failed, deferred)) =>
      failed && Extended(m) && (m.Sync? ==> !deferred && Since(b).whole)
    case Then(b, OverCaps(_)) => true
    case _ => false
  }

  /** There was trouble, and no Sync has reached the engine since. */
  predicate Owing(l: Log) {
    match l
    case Nothing => false
    case Then(b, Engine(m, _)) => !m.Sync? && Owing(b)
    case Then(b, _) => Trouble(l) || Owing(b)
  }

  /** So it was when the last frame was received, and still is. */
  predicate Barred(l: Log) {
    match l
    case Nothing => false
    case Then(b, Received(_, _)) => Owing(b)
    case Then(b, Engine(m, _)) => !m.Sync? && Barred(b)
    case Then(b, _) => Barred(b)
  }

  predicate EngineWork(e: Event) {
    e.StatusRead? || (e.Engine? && !e.m.Sync?)
  }

  /** While a discard is owed the query executor is called for a Sync alone, and its
      status is read only to report the very frame that made the trouble. */
  predicate Quiet(l: Log) {
    match l
    case Nothing => true
    case Then(b, Engine(m, _)) => Quiet(b) && (m.Sync? || !Owing(b))
    case Then(b, StatusRead) => Quiet(b) && !Barred(b)
    case Then(b, e) => Quiet(b)
  }

  function Events(l: Log): seq<Event> {
    match l
    case Nothing => []
    case Then(b, e) => Events(b) + [e]
  }

  predicate TroubleAt(l: Log, i: nat) {
    l.Then? && if i == |Events(l.before)| then Trouble(l) else TroubleAt(l.before, i)
  }

  predicate SyncAt(l: Log, k: nat) { k < |Events(l)| && Events(l)[k].Engine? && Events(l)[k].m.Sync? }

  /** The client's Sync reached the engine between these two events. */
  predicate SyncedBetween(l: Log, i: nat, j: nat) { exists k :: i < k < j && SyncAt(l, k) }

  /** The next frame was received between these two events. */
  predicate ReceivedBetween(l: Log, i: nat, j: nat) {
    exists k :: i < k < j && k < |Events(l)| && Events(l)[k].Received?
  }

  lemma StillSynced(l: Log, i: nat, j: nat)
    requires l.Then? && SyncedBetween(l.before, i, j)
    ensures SyncedBetween(l, i, j)
  {
    var k :| i < k < j && SyncAt(l.before, k);
    assert SyncAt(l, k);
  }

  lemma {:induction false} OwingSince(l: Log, i: nat)
    requires i < |Events(l)| && TroubleAt(l, i)
    ensures Owing(l) || SyncedBetween(l, i, |Events(l)|)
  {
    var n := |Events(l)| - 1;
    if i < n {
      OwingSince(l.before, i);
      if SyncedBetween(l.before, i, n) {
        StillSynced(l, i, n);
      } else if l.last.Engine? && l.last.m.Sync? {
        assert SyncAt(l, n);
      }
    }
  }

  lemma {:induction false} BarredSince(l: Log, i: nat)
    requires i < |Events(l)| && TroubleAt(l, i) && ReceivedBetween(l, i, |Events(l)|)
    ensures Barred(l) || SyncedBetween(l, i, |Events(l)|)
  {
    var n := |Events(l)| - 1;
    var k :| i < k <= n && Events(l)[k].Received?;
    OwingSince(l.before, i);
    if k < n && !l.last.Received? {
      assert Events(l.before)[k].Received?;
      BarredSince(l.before, i);
    }
    if SyncedBetween(l.before, i, n) {
      StillSynced(l, i, n);
    } else if l.last.Engine? && l.last.m.Sync? {
      assert SyncAt(l, n);
    }
  }

  /** Between the trouble and the next call on the query executor the client's Sync
      reached it; but the status may be read, before the next frame, to report it. */
  lemma {:induction false} NoEngineWorkUntilSync(l: Log, i: nat, j: nat)
    requires Quiet(l) && i < j < |Events(l)| && TroubleAt(l, i) && EngineWork(Events(l)[j])
    ensures SyncedBetween(l, i, j) || (Events(l)[j].StatusRead? && !ReceivedBetween(l, i, j))
  {
    var n := |Events(l)| - 1;
    if j < n {
      NoEngineWorkUntilSync(l.before, i, j);
      if SyncedBetween(l.before, i, j) {
        StillSynced(l, i, j);
      }
    } else {
      OwingSince(l.before, i);
      if k :| i < k < j && k < |Events(l)| && Events(l)[k].Received? {
        assert Events(l.before)[k].Received?;
        BarredSince(l.before, i);
      }
      if SyncedBetween(l.before, i, j) {
        StillSynced(l, i, j);
      }
    }
  }

  // ---- Segment caps -----------------------------------------------------------------

  predicate SegmentCall(e: Event) {
    e.Engine? && Extended(e.m) && !e.m.Sync?
  }

  /** Extended frames that reached the engine since the last Sync did. */
  function Dispatched(l: Log): nat {
    match l
    case Nothing => 0
    case Then(b, e) =>
      if e.Engine? && e.m.Sync? then 0 else Dispatched(b) + if SegmentCall(e) then 1 else 0
  }

  /** What they cost: declared length plus decoded allocation, both stages. */
  function Charged(l: Log): nat {
    match l
    case Nothing => 0
    case Then(b, e) =>
      if e.Engine? && e.m.Sync? then 0 else Charged(b) + if SegmentCall(e) then e.charge else 0
  }

  /** Between two Syncs the engine sees at most the caps' worth of frames. */
  predicate CapsOk(cfg: Config, l: Log) {
    match l
    case Nothing => true
    case Then(b, e) => CapsOk(cfg, b) && Dispatched(l) <= cfg.messageCap && Charged(l) <= cfg.byteCap
  }
}
