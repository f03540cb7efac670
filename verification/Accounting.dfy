/** The one place output is accounted for on its way to the client
    (`outputAccountant`, frontdoor/session_loop.go:1737-1861). */
module Accounting {
  import opened GeneralLane

  datatype Limits = Limits(watermark: nat, outputCap: nat)

  datatype Withheld = OutputComplete | AtCap | OnSaturatedLane

  /** The accountant's own fields, and two observations of the backend's write
      buffer: how many frames make up `pending`, and how many bytes were
      `forwarded` to it in all. */
  datatype Account = Account(held: nat, pending: nat, produced: nat, frames: nat, forwarded: nat, withheld: Withheld,
                             targetFailed: bool, unframeable: bool, writeFailed: bool)

  function Opened(held: nat): Account {
    Account(held, 0, 0, 0, 0, OutputComplete, false, false, false)
  }

  /** One engine message: its estimated size (a frame costs at least eight
      bytes), whether it carries the target's error, whether it can be framed,
      and what becomes of the writes it triggers. */
  datatype Emission = Emission(size: nat, isError: bool, framable: bool, firstWriteFails: bool, secondWriteFails: bool)

  predicate Sized(m: Emission) { 8 <= m.size }

  /** The frame is larger than the whole reservation: write what is buffered,
      then ask the lane for the difference. */
  function TopUp(lane: Lane, a: Account, m: Emission): (Lane, Account, bool) {
    if m.size <= a.held then (lane, a, true)
    else if m.firstWriteFails then (lane, a.(writeFailed := true), false)
    else
      var (lane', ok) := Reserve(lane, m.size - a.held);
      if ok then (lane', a.(pending := 0, frames := 0, held := m.size), true)
      else (lane', a.(pending := 0, frames := 0, withheld := OnSaturatedLane), false)
  }

  /** The watermark paces: a frame that would reach it drains the buffer first. */
  function Pace(lim: Limits, a: Account, m: Emission): (Account, bool) {
    if a.pending + m.size >= lim.watermark && a.pending > 0 then
      if m.secondWriteFails then (a.(writeFailed := true), false) else (a.(pending := 0, frames := 0), true)
    else (a, true)
  }

  /** The message is counted towards the cumulative output before anything else. */
  function Count(a: Account, m: Emission): Account {
    a.(targetFailed := a.targetFailed || m.isError, produced := a.produced + if m.framable then m.size else 0)
  }

  /** The account after one message, and whether it was forwarded. */
  function Emit(lim: Limits, lane: Lane, a: Account, m: Emission): (Lane, Account, bool) {
    var a1 := Count(a, m);
    if !m.framable then (lane, a1.(unframeable := true), false)
    else if a1.produced > lim.outputCap then (lane, a1.(withheld := AtCap), false)
    else
      var (lane', a2, granted) := TopUp(lane, a1, m);
      Afterwards(lim, lane', a2, granted, m)
  }

  function Afterwards(lim: Limits, lane: Lane, a: Account, granted: bool, m: Emission): (Lane, Account, bool) {
    if !granted then (lane, a, false)
    else
      var (a', paced) := Pace(lim, a, m);
      if !paced then (lane, a', false)
      else
        (lane, a'.(pending := a'.pending + m.size, frames := a'.frames + 1, forwarded := a'.forwarded + m.size), true)
  }

  /** The frame is larger than the whole reservation, and what is buffered was written:
      the lane is asked for the difference. */
  predicate AsksLane(lim: Limits, a: Account, m: Emission) {
    m.framable && Count(a, m).produced <= lim.outputCap && m.size > a.held && !m.firstWriteFails
  }

  /** The lane's answer is announced to the host before it is written down
      (frontdoor/session_loop.go:1823-1831). When that callback panics the lane has
      counted the grant and the account has not: its size comes last. */
  function AnnouncePanics(lim: Limits, lane: Lane, a: Account, m: Emission): (Lane, Account, nat)
    requires AsksLane(lim, a, m)
  {
    var (lane', ok) := Reserve(lane, m.size - a.held);
    (lane', Count(a, m).(pending := 0, frames := 0), if ok then m.size - a.held else 0)
  }

  /** The accountant as the object the emit callback updates in place. */
  class OutputAccountant {
    const lim: Limits
    const lane: GeneralLane
    var held: nat
    var pending: nat
    var produced: nat
    var frames: nat
    var forwarded: nat
    var withheld: Withheld
    var targetFailed: bool
    var unframeable: bool
    var writeFailed: bool

    function State(): Account
      reads this
    {
      Account(held, pending, produced, frames, forwarded, withheld, targetFailed, unframeable, writeFailed)
    }

    constructor (lim: Limits, lane: GeneralLane, held: nat)
      ensures this.lim == lim && this.lane == lane && State() == Opened(held)
    {
      this.lim, this.lane, this.held := lim, lane, held;
      pending, produced, frames, forwarded, withheld := 0, 0, 0, 0, OutputComplete;
      targetFailed, unframeable, writeFailed := false, false, false;
    }

    /** A frame larger than the whole reservation: what is buffered is written first,
        then the difference is asked of the lane. */
    method MakeRoom(m: Emission) returns (granted: bool)
      requires 0 <= lane.used
      modifies this`pending, this`frames, this`held, this`withheld, this`writeFailed, lane
      ensures (lane.State(), State(), granted) == TopUp(old(lane.State()), old(State()), m)
    {
      if m.size <= held {
        return true;
      }
      if m.firstWriteFails {
        writeFailed := true;
        return false;
      }
      pending, frames := 0, 0;
      granted := lane.ReserveWaiting(m.size - held);
      if granted {
        held := m.size;
      } else {
        withheld := OnSaturatedLane;
      }
    }

    /** The frame joins the buffer, which is drained first when it would reach the watermark. */
    method Buffer(m: Emission) returns (forwardedIt: bool)
      modifies this`pending, this`frames, this`forwarded, this`writeFailed
      ensures (lane.State(), State(), forwardedIt) == Afterwards(lim, lane.State(), old(State()), true, m)
    {
      if pending + m.size >= lim.watermark && pending > 0 {
        if m.secondWriteFails {
          writeFailed := true;
          return false;
        }
        pending, frames := 0, 0;
      }
      pending, frames := pending + m.size, frames + 1;
      forwarded := forwarded + m.size;
      return true;
    }

    method EmitMessage(m: Emission) returns (forwardedIt: bool)
      requires 0 <= lane.used
      modifies this, lane
      ensures (lane.State(), State(), forwardedIt) == Emit(lim, old(lane.State()), old(State()), m)
    {
      if m.isError {
        targetFailed := true;
      }
      if !m.framable {
        unframeable := true;
        return false;
      }
      produced := produced + m.size;
      if produced > lim.outputCap {
        withheld := AtCap;
        return false;
      }
      assert State() == Count(old(State()), m);
      var granted := MakeRoom(m);
      if !granted {
        return false;
      }
      forwardedIt := Buffer(m);
    }
  }

  /** One emission with the lane as other sessions left it. */
  datatype Turn = Turn(lane: Lane, m: Emission)

  function EmitAll(lim: Limits, a: Account, ts: seq<Turn>): Account
    decreases |ts|
  {
    if ts == [] then a
    else
      var n := |ts| - 1;
      Emit(lim, ts[n].lane, EmitAll(lim, a, ts[..n]), ts[n].m).1
  }

  ghost predicate AllSized(ts: seq<Turn>) {
    forall i :: 0 <= i < |ts| ==> Sized(ts[i].m)
  }

  // ---- what becomes of a message ----

  /** Nothing was kept from the client, no write failed, everything could be framed. */
  predicate Clean(a: Account) { a.withheld.OutputComplete? && !a.writeFailed && !a.unframeable }

  datatype Fate = Forwarded | Unframeable | OverCap | SocketFailed | LaneFull

  /** What is still buffered when the message's own room is found. */
  function Buffered(a: Account, m: Emission): nat { if m.size > a.held then 0 else a.pending }

  /** The first of the causes that keeps the message from the client, if there is one:
      it cannot be framed, it passes the output cap, the write before a request to the
      lane fails, the lane has no room for the difference, the draining write fails. */
  function FateOf(lim: Limits, lane: Lane, a: Account, m: Emission): Fate {
    if !m.framable then Unframeable
    else if a.produced + m.size > lim.outputCap then OverCap
    else if m.size > a.held && m.firstWriteFails then SocketFailed
    else if m.size > a.held && lane.used + (m.size - a.held) > lane.limit then LaneFull
    else if Buffered(a, m) > 0 && Buffered(a, m) + m.size >= lim.watermark && m.secondWriteFails then SocketFailed
    else Forwarded
  }

  /** Each flag stands for its own causes, and a message that met none was forwarded. */
  lemma EmitFate(lim: Limits, lane: Lane, a: Account, m: Emission)
    ensures var (_, a', forwardedIt) := Emit(lim, lane, a, m);
            var fate := FateOf(lim, lane, a, m);
            && (forwardedIt <==> fate == Forwarded)
            && a'.forwarded == a.forwarded + (if forwardedIt then m.size else 0)
            && a'.produced == a.produced + (if m.framable then m.size else 0)
            && (a'.unframeable <==> a.unframeable || fate == Unframeable)
            && (a'.writeFailed <==> a.writeFailed || fate == SocketFailed)
            && a'.withheld == (if fate == OverCap then AtCap
                               else if fate == LaneFull then OnSaturatedLane else a.withheld)
            && (a'.targetFailed <==> a.targetFailed || m.isError)
  {
  }

  /** What waits to be flushed behind a message, and what covers it: a message that outgrows
      the reservation, or fills up the watermark, waits alone; and nothing waits while the
      lane's refusal is dealt with. */
  lemma EmitBuffers(lim: Limits, lane: Lane, a: Account, m: Emission)
    ensures var (lane', a', forwardedIt) := Emit(lim, lane, a, m);
            && (forwardedIt ==>
                  && a'.held == (if m.size > a.held then m.size else a.held)
                  && a'.pending ==
                       m.size + (if m.size > a.held || a.pending + m.size >= lim.watermark then 0 else a.pending))
            && (FateOf(lim, lane, a, m) == LaneFull ==> a'.pending == 0 && a'.frames == 0)
            && lane' == lane.(used := lane.used + a'.held - a.held)
  {
  }

  function TotalSize(ts: seq<Turn>): nat {
    if ts == [] then 0 else TotalSize(ts[..|ts| - 1]) + ts[|ts| - 1].m.size
  }

  /** What became of the i-th message of a drive. */
  function FateAt(lim: Limits, start: nat, ts: seq<Turn>, i: nat): Fate
    requires i < |ts|
  {
    FateOf(lim, ts[i].lane, EmitAll(lim, Opened(start), ts[..i]), ts[i].m)
  }

  ghost predicate Met(lim: Limits, start: nat, ts: seq<Turn>, fate: Fate) {
    exists i :: 0 <= i < |ts| && FateAt(lim, start, ts, i) == fate
  }

  lemma FateEarlier(lim: Limits, start: nat, ts: seq<Turn>, i: nat)
    requires i < |ts| - 1
    ensures FateAt(lim, start, ts[..|ts| - 1], i) == FateAt(lim, start, ts, i)
  {
    assert ts[..|ts| - 1][..i] == ts[..i];
  }

  lemma MetOneMore(lim: Limits, start: nat, ts: seq<Turn>, fate: Fate)
    requires ts != []
    ensures var n := |ts| - 1;
            Met(lim, start, ts, fate) <==> Met(lim, start, ts[..n], fate) || FateAt(lim, start, ts, n) == fate
  {
    var n := |ts| - 1;
    if Met(lim, start, ts, fate) && FateAt(lim, start, ts, n) != fate {
      var i :| 0 <= i < |ts| && FateAt(lim, start, ts, i) == fate;
      FateEarlier(lim, start, ts, i);
    }
    if Met(lim, start, ts[..n], fate) {
      var i :| 0 <= i < n && FateAt(lim, start, ts[..n], i) == fate;
      FateEarlier(lim, start, ts, i);
    }
  }

  /** Over a whole drive: each flag is up exactly when a message met its cause. */
  lemma {:induction false} FlagsExactly(lim: Limits, start: nat, ts: seq<Turn>)
    ensures var a := EmitAll(lim, Opened(start), ts);
            && (a.unframeable <==> Met(lim, start, ts, Unframeable))
            && (a.writeFailed <==> Met(lim, start, ts, SocketFailed))
            && (a.withheld != OutputComplete <==> Met(lim, start, ts, OverCap) || Met(lim, start, ts, LaneFull))
            && (a.withheld == AtCap ==> Met(lim, start, ts, OverCap))
            && (a.withheld == OnSaturatedLane ==> Met(lim, start, ts, LaneFull))
            && (a.targetFailed <==> exists i :: 0 <= i < |ts| && ts[i].m.isError)
    decreases |ts|
  {
    if ts != [] {
      var n := |ts| - 1;
      FlagsExactly(lim, start, ts[..n]);
      EmitFate(lim, ts[n].lane, EmitAll(lim, Opened(start), ts[..n]), ts[n].m);
      MetOneMore(lim, start, ts, Unframeable);
      MetOneMore(lim, start, ts, SocketFailed);
      MetOneMore(lim, start, ts, OverCap);
      MetOneMore(lim, start, ts, LaneFull);
      ErredOneMore(ts);
    }
  }

  lemma ErredOneMore(ts: seq<Turn>)
    requires ts != []
    ensures var n := |ts| - 1;
            (exists i :: 0 <= i < |ts| && ts[i].m.isError) <==>
              (exists i :: 0 <= i < n && ts[..n][i].m.isError) || ts[n].m.isError
  {
    var n := |ts| - 1;
    if i :| 0 <= i < |ts| && ts[i].m.isError {
      assert i < n ==> ts[..n][i].m.isError;
    }
  }

  /** Nothing is lost without a word: the account is clean if and only if everything the
      engine emitted was forwarded. */
  lemma {:induction false} CleanExactly(lim: Limits, start: nat, ts: seq<Turn>)
    requires AllSized(ts)
    ensures var a := EmitAll(lim, Opened(start), ts);
            && a.forwarded <= TotalSize(ts)
            && (Clean(a) <==> a.forwarded == TotalSize(ts))
    decreases |ts|
  {
    if ts != [] {
      var n := |ts| - 1;
      CleanExactly(lim, start, ts[..n]);
      EmitFate(lim, ts[n].lane, EmitAll(lim, Opened(start), ts[..n]), ts[n].m);
    }
  }

  /** The drives whose pending output is always reserved: see CoveredExactlyFromWatermark. */
  predicate Covering(lim: Limits, start: nat) {
    start + 1 >= lim.watermark || lim.watermark <= 16
  }

  ghost predicate Bounded(lim: Limits, start: nat, a: Account) {
    && start <= a.held
    && a.forwarded <= lim.outputCap && a.forwarded <= a.produced
    && (a.pending < lim.watermark || a.frames == 1)
    && (a.frames == 0 ==> a.pending == 0) && (a.frames > 0 ==> a.pending >= 8)
    && (a.frames == 1 ==> a.pending <= a.held)
    && (Covering(lim, start) ==> a.pending <= a.held)
  }

  lemma EmitBounded(lim: Limits, start: nat, lane: Lane, a: Account, m: Emission)
    requires 0 < lim.watermark && Bounded(lim, start, a) && Sized(m)
    ensures Bounded(lim, start, Emit(lim, lane, a, m).1)
  {
    var a1 := Count(a, m);
    assert Bounded(lim, start, a1);
    if m.framable && a1.produced <= lim.outputCap {
      TopUpBounded(lim, start, lane, a1, m);
      var (lane', a2, granted) := TopUp(lane, a1, m);
      AfterwardsBounded(lim, start, lane', a2, granted, m);
      assert Emit(lim, lane, a, m).1 == Afterwards(lim, lane', a2, granted, m).1;
    } else {
      var a' := Emit(lim, lane, a, m).1;
      assert a' == a1.(unframeable := true) || a' == a1.(withheld := AtCap);
    }
  }

  lemma AnnounceBounded(lim: Limits, start: nat, lane: Lane, a: Account, m: Emission)
    requires 0 < lim.watermark && Bounded(lim, start, a) && AsksLane(lim, a, m)
    ensures Bounded(lim, start, AnnouncePanics(lim, lane, a, m).1)
  {
  }

  lemma AfterwardsBounded(lim: Limits, start: nat, lane: Lane, a: Account, granted: bool, m: Emission)
    requires 0 < lim.watermark && Bounded(lim, start, a) && Sized(m)
    requires granted ==> m.size <= a.held && a.forwarded + m.size <= a.produced <= lim.outputCap
    ensures Bounded(lim, start, Afterwards(lim, lane, a, granted, m).1)
  {
    if granted {
      PaceBounded(lim, start, a, m);
    }
  }

  lemma TopUpBounded(lim: Limits, start: nat, lane: Lane, a: Account, m: Emission)
    requires 0 < lim.watermark && Bounded(lim, start, a)
    ensures var (_, a', granted) := TopUp(lane, a, m);
            && Bounded(lim, start, a')
            && a'.produced == a.produced && a'.forwarded == a.forwarded
            && (granted ==> m.size <= a'.held)
  {
  }

  lemma PaceBounded(lim: Limits, start: nat, a: Account, m: Emission)
    requires 0 < lim.watermark && Bounded(lim, start, a) && m.size <= a.held && Sized(m)
    requires a.forwarded + m.size <= a.produced <= lim.outputCap
    ensures var (a', paced) := Pace(lim, a, m);
            && Bounded(lim, start, a')
            && (paced ==> Bounded(lim, start, a'.(pending := a'.pending + m.size, frames := a'.frames + 1,
                                                   forwarded := a'.forwarded + m.size)))
  {
  }

  /** Whatever the engine emits and whatever the lane answers, in one drive: the
      reservation never shrinks, what is forwarded stays within the output cap,
      what is pending is below the watermark or is a single frame, and a drive
      that starts holding the watermark never has more pending than it holds. */
  lemma {:induction false} DriveBounds(lim: Limits, start: nat, ts: seq<Turn>)
    requires 0 < lim.watermark && AllSized(ts)
    ensures Bounded(lim, start, EmitAll(lim, Opened(start), ts))
    decreases |ts|
  {
    if ts != [] {
      var n := |ts| - 1;
      DriveBounds(lim, start, ts[..n]);
      EmitBounded(lim, start, ts[n].lane, EmitAll(lim, Opened(start), ts[..n]), ts[n].m);
    }
  }

  ghost predicate AlwaysCovered(lim: Limits, start: nat) {
    forall ts :: AllSized(ts) ==> EmitAll(lim, Opened(start), ts).pending <= EmitAll(lim, Opened(start), ts).held
  }

  /** Exactly which drives keep every pending byte reserved: those that start
      holding the watermark (less one byte at most), or with a watermark too
      small for two frames. A drive that starts with less can leave more in the
      buffer than it holds, on any lane with room. */
  lemma CoveredExactlyFromWatermark(lim: Limits, start: nat)
    requires 0 < lim.watermark <= lim.outputCap
    ensures AlwaysCovered(lim, start) <==> Covering(lim, start)
  {
    if Covering(lim, start) {
      forall ts | AllSized(ts)
        ensures EmitAll(lim, Opened(start), ts).pending <= EmitAll(lim, Opened(start), ts).held
      {
        DriveBounds(lim, start, ts);
      }
    } else {
      var ts := Uncovered(lim, start);
      assert !AlwaysCovered(lim, start);
    }
  }

  /** Two frames: one of nearly a watermark, then a small one that still fits under it. */
  lemma Uncovered(lim: Limits, start: nat) returns (ts: seq<Turn>)
    requires lim.watermark <= lim.outputCap && !Covering(lim, start)
    ensures AllSized(ts) && EmitAll(lim, Opened(start), ts).pending > EmitAll(lim, Opened(start), ts).held
  {
    var lane := Lane(lim.watermark, 0);
    var large := Turn(lane, Emission(lim.watermark - 9, false, true, false, false));
    var small := Turn(lane, Emission(8, false, true, false, false));
    ts := [large, small];
    assert ts[..1] == [large] && [large][..0] == [];
    var one := Emit(lim, lane, Opened(start), large.m).1;
    assert EmitAll(lim, Opened(start), [large]) == one;
    assert one.pending == lim.watermark - 9;
    assert EmitAll(lim, Opened(start), ts) == Emit(lim, lane, one, small.m).1;
  }
}
