/** Reclaiming an idle session: the session loop offers itself while it waits for a
    client to say something, the engine may reserve it inside that window, and
    whatever it reserved is finalised, at most once
    (frontdoor/demand_wake.go:94-224, frontdoor/session_loop.go:69-97 and 160-194).

    The engine is any scheduler that reserves only inside an open window. A move
    that is not enabled leaves the state alone. */
module DemandWake {
  import opened Framing

  /** The engine's side, under its one mutex. */
  datatype Window = Shut | Open(token: nat) | Taken(token: nat, gen: nat)

  /** Whether the client was told why, before the engine took the lease back. */
  datatype Delivery = NotAttempted | Delivered | FlushFailed

  datatype Record = Record(gen: nat, delivery: Delivery)

  /** Where the session loop is in its pass. */
  datatype Loop =
    | Top | Waiting | Retiring | Working
    | Ending(gen: nat, delivery: Delivery)
    | Leaving                // the deferred close comes next
    | Abandoned(gen: nat)    // it found a reservation, and tells the host before it finalises it
    | Ended

  datatype State = State(
    live: bool,             // the executor schedules leases at all
    reader: Scanner,
    window: Window,
    token: nat,             // the loop's offer; zero is none
    tokens: nat,            // offers made so far
    gens: nat,              // reservations taken so far
    finalised: seq<Record>, // reservations finished, in order
    lost: nat,              // reservations nothing will finish
    told: nat,              // fatal frames flushed to the client
    loop: Loop,
    base: Scanner,          // the reader as it was when the window last opened
    since: seq<byte>)       // the bytes read since

  datatype Move =
    | BeginPass | Read(bs: seq<byte>) | WaitEnds | Retire
    | WorkDone(bs: seq<byte>) | WorkReturns
    | Tell(flushed: bool) | Finish | Panic | Leave | Settle
    | Reserve

  /** A session begins with whatever the exchange before it has read ahead. */
  function Init(live: bool, reader: Scanner): State {
    State(live, reader, Shut, 0, 0, 0, [], 0, 0, Top, reader, [])
  }

  predicate AtBoundary(r: Scanner) { r.pending == [] && !MidMessage(r) }

  predicate ReaderOk(r: Scanner) { r.fault.NoFault? ==> WellFormed(r) }

  /** The offer opens only when no header is framed and no message is under way. */
  function Begin(s: State): State {
    if s.live && AtBoundary(s.reader)
    then s.(loop := Waiting, window := Open(s.tokens + 1), token := s.tokens + 1, tokens := s.tokens + 1,
            base := s.reader, since := [])
    else s.(loop := Waiting)
  }

  /** Retiring an offer closes the window and hands over any notice published in it. */
  function Retired(s: State): State { s.(window := Shut, token := 0) }

  function Finalised(s: State, gen: nat, d: Delivery): State { s.(finalised := s.finalised + [Record(gen, d)]) }

  function Next(s: State, move: Move): State {
    match move
    case BeginPass => if s.loop == Top then Begin(s) else s
    case Read(bs) =>
      if s.loop == Waiting && s.reader.pending == [] && ReaderOk(s.reader)
      then s.(reader := ScanAll(s.reader, bs), since := s.since + bs) else s
    case WaitEnds => if s.loop == Waiting then s.(loop := Retiring) else s
    case Retire =>
      if s.loop != Retiring then s
      else if s.token == 0 then s.(loop := Working)
      else if s.window.Taken? then Retired(s).(loop := Ending(s.window.gen, NotAttempted))
      else Retired(s).(loop := Working)
    case WorkDone(bs) =>
      if s.loop == Working && ReaderOk(s.reader)
      then s.(loop := Top, reader := ScanAll(Popped(s.reader), bs)) else s
    case WorkReturns => if s.loop == Working then s.(loop := Leaving) else s
    case Tell(flushed) =>
      if s.loop.Ending? && s.loop.delivery == NotAttempted
      then s.(loop := Ending(s.loop.gen, if flushed then Delivered else FlushFailed),
              told := s.told + if flushed then 1 else 0)
      else s
    case Finish => if s.loop.Ending? then Finalised(s, s.loop.gen, s.loop.delivery).(loop := Leaving) else s
    case Panic =>
      if s.loop.Ending? then Finalised(s, s.loop.gen, s.loop.delivery).(loop := Leaving)
      else if s.loop.Abandoned? then s.(loop := Ended, lost := s.lost + 1)
      else if s.loop == Ended || s.loop == Leaving then s
      else s.(loop := Leaving)
    case Leave =>
      if s.loop != Leaving then s
      else if s.token != 0 && s.window.Taken? then Retired(s).(loop := Abandoned(s.window.gen))
      else Retired(s).(loop := Ended)
    case Settle => if s.loop.Abandoned? then Finalised(s, s.loop.gen, NotAttempted).(loop := Ended) else s
    case Reserve =>
      if s.window.Open? then s.(window := Taken(s.window.token, s.gens), gens := s.gens + 1) else s
  }

  function Popped(r: Scanner): Scanner {
    if r.pending == [] then r else r.(pending := r.pending[1..])
  }

  function Run(s: State, moves: seq<Move>): State
    decreases |moves|
  {
    if moves == [] then s else Run(Next(s, moves[0]), moves[1..])
  }

  // ---- what every run keeps ----

  /** The reservation taken and not yet finished, if there is one. */
  predicate Outstanding(s: State) { s.window.Taken? || s.loop.Ending? || s.loop.Abandoned? }

  predicate WindowOk(s: State) {
    && (s.window == Shut <==> s.token == 0)
    && (s.window != Shut ==> s.window.token == s.token)
    && (s.window != Shut ==> s.loop == Waiting || s.loop == Retiring || s.loop == Leaving)
    && (!s.live ==> s.window == Shut)
  }

  predicate LedgerOk(s: State) {
    && s.gens == |s.finalised| + s.lost + (if Outstanding(s) then 1 else 0)
    && |s.finalised| + s.lost <= 1 && (s.lost > 0 ==> s.loop == Ended && s.window == Shut)
    && (forall i :: 0 <= i < |s.finalised| ==> s.finalised[i].gen == i)
    && (s.window.Taken? ==> s.window.gen == |s.finalised|)
    && (s.loop.Ending? || s.loop.Abandoned? ==> s.loop.gen == |s.finalised| && s.window == Shut)
    && (s.finalised != [] ==> (s.loop == Leaving || s.loop == Ended) && s.window == Shut)
    && s.told == (if s.finalised != [] && s.finalised[0].delivery == Delivered then 1
                  else if s.loop.Ending? && s.loop.delivery == Delivered then 1 else 0)
  }

  /** While the window is open the reader has moved from a frame boundary by exactly
      the bytes read since. */
  predicate OfferOk(s: State) {
    s.window != Shut ==> AtBoundary(s.base) && ReaderOk(s.base) && s.reader == ScanAll(s.base, s.since)
  }

  predicate Ok(s: State) { WindowOk(s) && LedgerOk(s) && ReaderOk(s.reader) && OfferOk(s) }

  lemma NextWindow(s: State, move: Move)
    requires WindowOk(s) && LedgerOk(s)
    ensures WindowOk(Next(s, move))
  {
  }

  lemma NextLedger(s: State, move: Move)
    requires WindowOk(s) && LedgerOk(s)
    ensures LedgerOk(Next(s, move))
  {
  }

  lemma NextReader(s: State, move: Move)
    requires Ok(s)
    ensures ReaderOk(Next(s, move).reader) && OfferOk(Next(s, move))
  {
    if move.Read? && s.window != Shut && s.loop == Waiting && s.reader.pending == [] {
      ScanChunks(s.base, s.since, move.bs);
    }
  }

  lemma {:induction false} RunKeeps(s: State, moves: seq<Move>)
    requires Ok(s)
    ensures Ok(Run(s, moves))
    decreases |moves|
  {
    if moves != [] {
      NextWindow(s, moves[0]);
      NextLedger(s, moves[0]);
      NextReader(s, moves[0]);
      RunKeeps(Next(s, moves[0]), moves[1..]);
    }
  }

  // ---- the promises ----

  /** The move that loses a reservation: the host's callback panics in the deferred
      close, between its finding the reservation and its finalising it. */
  predicate Drops(s: State, move: Move) { s.loop.Abandoned? && move.Panic? }

  predicate NoDrop(s: State, moves: seq<Move>)
    decreases |moves|
  {
    moves == [] || (!Drops(s, moves[0]) && NoDrop(Next(s, moves[0]), moves[1..]))
  }

  lemma LostByDrops(s: State, move: Move)
    ensures Next(s, move).lost == s.lost + if Drops(s, move) then 1 else 0
  {
  }

  lemma {:induction false} LostExactly(s: State, moves: seq<Move>)
    ensures Run(s, moves).lost >= s.lost
    ensures Run(s, moves).lost == s.lost <==> NoDrop(s, moves)
    decreases |moves|
  {
    if moves != [] {
      LostByDrops(s, moves[0]);
      LostExactly(Next(s, moves[0]), moves[1..]);
    }
  }

  /** In every run no reservation is finalised twice; and when the session loop has
      ended, by a panic or not, each one ever taken has been finalised exactly once,
      if and only if no panic fell inside the deferred close's own callback. */
  lemma FinalisedOnce(live: bool, reader: Scanner, moves: seq<Move>)
    requires ReaderOk(reader)
    ensures var s := Run(Init(live, reader), moves);
            && (forall i, j :: 0 <= i < j < |s.finalised| ==> s.finalised[i].gen != s.finalised[j].gen)
            && (forall g :: 0 <= g < |s.finalised| ==> s.finalised[g].gen == g)
            && (s.loop == Ended ==> (|s.finalised| == s.gens <==> NoDrop(Init(live, reader), moves)))
  {
    RunKeeps(Init(live, reader), moves);
    LostExactly(Init(live, reader), moves);
  }

  /** Such a run: a panic in the wait after the engine has reserved the session, and
      another in the callback of the deferred close. */
  lemma LostReservationWitness() returns (moves: seq<Move>)
    ensures var s := Run(Init(true, AT_BOUNDARY), moves);
            s.loop == Ended && s.gens == 1 && s.finalised == [] && s.window == Shut
  {
    var s := Init(true, AT_BOUNDARY);
    moves := [BeginPass] + [Reserve, Panic, Leave, Panic];
    RunOne(s, BeginPass, [Reserve, Panic, Leave, Panic]);
    RunFour(Next(s, BeginPass), Reserve, Panic, Leave, Panic);
  }

  /** The record is honest: a reclamation is recorded as delivered exactly when its
      client was told, and the telling came before the lease was given up. */
  lemma RecordHonest(live: bool, reader: Scanner, moves: seq<Move>)
    requires ReaderOk(reader)
    ensures var s := Run(Init(live, reader), moves);
            && (s.loop == Ended ==>
                  (s.told == 1 <==> exists i :: 0 <= i < |s.finalised| && s.finalised[i].delivery == Delivered))
            && s.told <= 1
            && (s.finalised != [] ==> forall m :: Next(s, m).told == s.told)
  {
    RunKeeps(Init(live, reader), moves);
    var s := Run(Init(live, reader), moves);
    if s.told == 1 && s.loop == Ended {
      assert s.finalised[0].delivery == Delivered;
    }
  }

  /** A pass that goes on to a frame does so with the window shut and no reservation
      outstanding; one that was reserved ends the session. At most one is ever taken. */
  lemma WorksUnreserved(live: bool, reader: Scanner, moves: seq<Move>)
    requires ReaderOk(reader)
    ensures var s := Run(Init(live, reader), moves);
            && (s.loop == Working || s.loop == Top ==> s.window == Shut && !Outstanding(s) && s.gens == 0)
            && s.gens <= 1
  {
    RunKeeps(Init(live, reader), moves);
  }

  /** Bytes read from a boundary frame a header or leave a message under way. */
  lemma BytesShow(r: Scanner, bs: seq<byte>)
    requires AtBoundary(r) && r.fault.NoFault? && WellFormed(r) && ScanAll(r, bs).fault.NoFault?
    ensures AtBoundary(ScanAll(r, bs)) <==> bs == []
  {
    ScanIsParse(r, bs);
  }

  lemma BoundaryType(r: Scanner, bs: seq<byte>)
    requires AtBoundary(r) && r.fault.NoFault? && WellFormed(r)
    ensures ScanAll(r, bs).fault == ScanAll(AT_BOUNDARY, bs).fault
    ensures ScanAll(r, bs).fault.NoFault? ==> (MidMessage(ScanAll(r, bs)) <==> MidMessage(ScanAll(AT_BOUNDARY, bs)))
  {
    if bs != [] && ValidFrontendType(bs[0]) {
      assert Step(r, bs[0]) == Step(AT_BOUNDARY, bs[0]);
    }
  }

  /** While an offer is open the loop is waiting, and everything the reader holds
      arrived in the wait. With no framing fault: no header is framed and no
      message is under way exactly when nothing has arrived; and a message is
      under way exactly when what has arrived is not whole frames. */
  lemma OfferHonest(live: bool, reader: Scanner, moves: seq<Move>)
    requires ReaderOk(reader) && Run(Init(live, reader), moves).window != Shut
    ensures var s := Run(Init(live, reader), moves);
            && AtBoundary(s.base) && ReaderOk(s.base) && s.reader == ScanAll(s.base, s.since)
            && (s.reader.fault.NoFault? ==> (AtBoundary(s.reader) <==> s.since == []))
            && (s.reader.fault.NoFault? ==> (MidMessage(s.reader) <==> !WholeFrames(s.since)))
            && (s.loop == Waiting || s.loop == Retiring || s.loop == Leaving)
  {
    RunKeeps(Init(live, reader), moves);
    var s := Run(Init(live, reader), moves);
    if s.base.fault.NoFault? {
      BoundaryType(s.base, s.since);
      MidMessageExact(s.since);
      if s.reader.fault.NoFault? {
        BytesShow(s.base, s.since);
      }
    }
  }

  lemma RunOne(s: State, x: Move, rest: seq<Move>)
    ensures Run(s, [x] + rest) == Run(Next(s, x), rest)
  {
    assert ([x] + rest)[1..] == rest;
  }

  lemma RunFour(s: State, a: Move, b: Move, c: Move, d: Move)
    ensures Run(s, [a, b, c, d]) == Next(Next(Next(Next(s, a), b), c), d)
  {
    RunOne(s, a, [b, c, d]);
    RunOne(Next(s, a), b, [c, d]);
    RunOne(Next(Next(s, a), b), c, [d]);
    RunOne(Next(Next(Next(s, a), b), c), d, []);
    assert [a, b, c, d] == [a] + [b, c, d] && [b, c, d] == [b] + [c, d] && [c, d] == [c] + [d] && [d] == [d] + [];
  }

  /** A message can be under way inside an open offer: once its first byte arrives,
      the engine may still reserve the session, and the message is lost with it. */
  lemma ReservedMidMessage() returns (moves: seq<Move>)
    ensures var s := Run(Init(true, AT_BOUNDARY), moves);
            && s.window.Taken? && MidMessage(s.reader) && s.loop == Retiring
            && Next(s, Retire).loop == Ending(0, NotAttempted)
  {
    var q: byte := 'Q' as byte;
    moves := [BeginPass, Read([q]), Reserve, WaitEnds];
    RunFour(Init(true, AT_BOUNDARY), BeginPass, Read([q]), Reserve, WaitEnds);
    var s1 := Next(Init(true, AT_BOUNDARY), BeginPass);
    assert ScanAll(s1.reader, [q]) == ScanAll(Framing.Step(s1.reader, q), []);
  }
}
