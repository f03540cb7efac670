/** What an offer to be reclaimed means to the client, what becomes of one that is taken,
    and that a session loop can always end (frontdoor/session_loop.go:69-97 and 150-194,
    frontdoor/demand_wake.go:94-224). */
module DemandProgress {
  import opened Framing
  import opened DemandWake

  // ---- the bytes a session has read and the frames it has served ----

  predicate Scans(s: State, move: Move) {
    && ReaderOk(s.reader)
    && ((move.Read? && s.loop == Waiting && s.reader.pending == []) || (move.WorkDone? && s.loop == Working))
  }

  function BytesOf(s: State, move: Move): seq<byte> { if Scans(s, move) then move.bs else [] }

  function ServedBy(s: State, move: Move): nat {
    if Scans(s, move) && move.WorkDone? && s.reader.pending != [] then 1 else 0
  }

  function AllBytes(s: State, moves: seq<Move>): seq<byte>
    decreases |moves|
  {
    if moves == [] then [] else BytesOf(s, moves[0]) + AllBytes(Next(s, moves[0]), moves[1..])
  }

  function AllServed(s: State, moves: seq<Move>): nat
    decreases |moves|
  {
    if moves == [] then 0 else ServedBy(s, moves[0]) + AllServed(Next(s, moves[0]), moves[1..])
  }

  /** The scanner with the first `k` headers it queued taken off. */
  function Behind(u: Scanner, k: nat): Scanner
    requires k <= |u.pending|
  {
    u.(pending := u.pending[k..])
  }

  lemma StepBehind(u: Scanner, k: nat, b: byte)
    requires WellFormed(u) && k <= |u.pending|
    ensures Framing.Step(Behind(u, k), b) == Behind(Framing.Step(u, b), k)
  {
    assert forall h: Header :: (u.pending + [h])[k..] == u.pending[k..] + [h];
  }

  /** Taking headers off the queue and scanning more bytes do not disturb each other. */
  lemma {:induction false} ScanBehind(u: Scanner, k: nat, bs: seq<byte>)
    requires ReaderOk(u) && k <= |u.pending|
    ensures k <= |ScanAll(u, bs).pending| && ScanAll(Behind(u, k), bs) == Behind(ScanAll(u, bs), k)
    decreases |bs|
  {
    if bs != [] && u.fault.NoFault? {
      StepBehind(u, k, bs[0]);
      ScanBehind(Framing.Step(u, bs[0]), k, bs[1..]);
    }
  }

  lemma MoveBehind(s: State, move: Move, u: Scanner, k: nat)
    requires ReaderOk(u) && k <= |u.pending| && s.reader == Behind(u, k)
    ensures var v, n := ScanAll(u, BytesOf(s, move)), k + ServedBy(s, move);
            n <= |v.pending| && ReaderOk(v) && Next(s, move).reader == Behind(v, n)
  {
    if Scans(s, move) {
      var n := k + ServedBy(s, move);
      if move.WorkDone? {
        assert Popped(s.reader) == Behind(u, n);
      }
      ScanBehind(u, n, move.bs);
    }
  }

  lemma {:induction false} RunBehind(s: State, moves: seq<Move>, u: Scanner, k: nat)
    requires ReaderOk(u) && k <= |u.pending| && s.reader == Behind(u, k)
    ensures var v, n := ScanAll(u, AllBytes(s, moves)), k + AllServed(s, moves);
            n <= |v.pending| && Run(s, moves).reader == Behind(v, n)
    decreases |moves|
  {
    if moves != [] {
      MoveBehind(s, moves[0], u, k);
      var first, t := BytesOf(s, moves[0]), Next(s, moves[0]);
      RunBehind(t, moves[1..], ScanAll(u, first), k + ServedBy(s, moves[0]));
      ScanChunks(u, first, AllBytes(t, moves[1..]));
    }
  }

  // ---- when an offer is made -------------------------------------------------------------

  /** An offer is a promise that nothing is in flight. In every run whose bytes can be
      framed: a pass opens one if and only if leases are scheduled at all, what the client
      has sent is whole frames, and every one of them has been served. */
  lemma OfferedExactly(live: bool, moves: seq<Move>)
    requires Run(Init(live, AT_BOUNDARY), moves).loop == Top
    requires Parse(AllBytes(Init(live, AT_BOUNDARY), moves)).fault.NoFault?
    ensures var s, bytes := Run(Init(live, AT_BOUNDARY), moves), AllBytes(Init(live, AT_BOUNDARY), moves);
            Next(s, BeginPass).window.Open? <==>
              live && WholeFrames(bytes) && AllServed(Init(live, AT_BOUNDARY), moves) == |Parse(bytes).headers|
  {
    var i := Init(live, AT_BOUNDARY);
    var s, bytes, n := Run(i, moves), AllBytes(i, moves), AllServed(i, moves);
    assert AT_BOUNDARY == Behind(AT_BOUNDARY, 0);
    RunBehind(i, moves, AT_BOUNDARY, 0);
    ScanIsParse(AT_BOUNDARY, bytes);
    MidMessageExact(bytes);
    assert AT_BOUNDARY.pending + Parse(bytes).headers == Parse(bytes).headers;
    assert MidMessage(s.reader) == MidMessage(ScanAll(AT_BOUNDARY, bytes));
    SameLive(i, moves);
    WorksUnreserved(live, AT_BOUNDARY, moves);
  }

  lemma {:induction false} SameLive(s: State, moves: seq<Move>)
    ensures Run(s, moves).live == s.live
    decreases |moves|
  {
    if moves != [] {
      SameLive(Next(s, moves[0]), moves[1..]);
    }
  }

  // ---- what becomes of one that is taken ---------------------------------------------------

  /** A session at the top of its pass that the engine tries to reclaim while it waits is
      reclaimed if and only if it is idle at a frame boundary and leases are scheduled; if
      not, the pass goes on, with nothing reserved and nothing of its input touched. */
  lemma ReclaimedExactly(live: bool, reader: Scanner, moves: seq<Move>)
    requires ReaderOk(reader) && Run(Init(live, reader), moves).loop == Top
    ensures var s := Run(Init(live, reader), moves);
            var t := Run(s, [BeginPass, Reserve, WaitEnds, Retire]);
            && t.window == Shut && t.reader == s.reader
            && (s.live && AtBoundary(s.reader) ==> t.loop == Ending(0, NotAttempted) && t.gens == 1)
            && (!(s.live && AtBoundary(s.reader)) ==> t.loop == Working && t.gens == 0)
  {
    var s := Run(Init(live, reader), moves);
    WorksUnreserved(live, reader, moves);
    RunKeeps(Init(live, reader), moves);
    RunFour(s, BeginPass, Reserve, WaitEnds, Retire);
    var t := Next(s, BeginPass);
    assert t == Begin(s);
  }

  /** A reclaimed session's client is told if the write works, and what is recorded is
      whether it did; then the lease goes back, once. */
  lemma ToldThenFinalised(live: bool, reader: Scanner, moves: seq<Move>, flushed: bool)
    requires ReaderOk(reader) && Run(Init(live, reader), moves).loop == Ending(0, NotAttempted)
    ensures var s := Run(Init(live, reader), moves);
            var t := Run(s, [Tell(flushed), Finish, Leave, Settle]);
            && t.loop == Ended && t.window == Shut
            && t.finalised == [Record(0, if flushed then Delivered else FlushFailed)]
            && t.told == if flushed then 1 else 0
  {
    RunKeeps(Init(live, reader), moves);
    var s := Run(Init(live, reader), moves);
    RunFour(s, Tell(flushed), Finish, Leave, Settle);
  }

  // ---- the loop can end --------------------------------------------------------------------

  function PhasesLeft(l: Loop): nat {
    match l
    case Top => 6
    case Waiting => 5
    case Retiring => 4
    case Working => 3
    case Ending(_, _) => 3
    case Leaving => 2
    case Abandoned(_) => 1
    case Ended => 0
  }

  /** The loop's next move when its client has gone. */
  function Onward(l: Loop): Move {
    match l
    case Top => BeginPass
    case Waiting => WaitEnds
    case Retiring => Retire
    case Working => WorkReturns
    case Ending(_, _) => Finish
    case Leaving => Leave
    case _ => Settle
  }

  lemma OnwardMoves(s: State)
    requires s.loop != Ended
    ensures PhasesLeft(Next(s, Onward(s.loop)).loop) < PhasesLeft(s.loop) && !Drops(s, Onward(s.loop))
  {
  }

  lemma {:induction false} Ends(s: State) returns (rest: seq<Move>)
    ensures Run(s, rest).loop == Ended && NoDrop(s, rest) && |rest| <= 6
    ensures |rest| <= PhasesLeft(s.loop)
    decreases PhasesLeft(s.loop)
  {
    rest := [];
    if s.loop != Ended {
      OnwardMoves(s);
      var more := Ends(Next(s, Onward(s.loop)));
      rest := [Onward(s.loop)] + more;
      RunOne(s, Onward(s.loop), more);
    }
  }

  lemma {:induction false} NoDropConcat(s: State, a: seq<Move>, b: seq<Move>)
    requires NoDrop(s, a) && NoDrop(Run(s, a), b)
    ensures NoDrop(s, a + b) && Run(s, a + b) == Run(Run(s, a), b)
    decreases |a|
  {
    if a == [] {
      assert a + b == b;
    } else {
      assert (a + b)[1..] == a[1..] + b;
      NoDropConcat(Next(s, a[0]), a[1..], b);
    }
  }

  /** From every moment of every run the loop can end within six moves of its own; and if
      nothing was lost by then, every reservation it ever met has been finalised. */
  lemma LoopCanEnd(live: bool, reader: Scanner, moves: seq<Move>) returns (rest: seq<Move>)
    requires ReaderOk(reader)
    ensures |rest| <= 6 && Run(Run(Init(live, reader), moves), rest).loop == Ended
    ensures NoDrop(Init(live, reader), moves) ==>
              var t := Run(Run(Init(live, reader), moves), rest); |t.finalised| == t.gens && t.window == Shut
  {
    var i := Init(live, reader);
    rest := Ends(Run(i, moves));
    if NoDrop(i, moves) {
      NoDropConcat(i, moves, rest);
      FinalisedOnce(live, reader, moves + rest);
      RunKeeps(i, moves + rest);
    }
  }
}
