/** The segment's state as the object the session loop updates in place
    (`segmentLane`, frontdoor/session_extended.go:409-471, 521-603). */
module SegmentLane {
  import opened GeneralLane
  import opened Session

  /** What admission makes of the segment, and of the frame. */
  lemma AdmissionOnSegment(cfg: Config, s: Session, m: Msg, declared: nat, a: Answers)
    requires Extended(m) && !m.Sync?
    ensures var adm := AdmitSegmentFrame(cfg, s, m, declared, a);
            var counted := AddBytes(s.seg.(msgs := s.seg.msgs + 1), declared);
            && (s.seg.discarding ==>
                  && adm.s.seg == (if m.Flush? && !a.writeFails then s.seg.(ran := false) else s.seg)
                  && !adm.Admit? && (adm.Stop? <==> m.Flush? && a.writeFails))
            && (!s.seg.discarding && WithinCaps(cfg, counted) ==> adm.Admit? && adm.s.seg == counted)
            && (!s.seg.discarding && !WithinCaps(cfg, counted) ==>
                  && !adm.Admit? && (adm.Stop? <==> a.writeFails)
                  && adm.s.seg == if a.writeFails then counted else counted.(discarding := true))
  {
  }

  class SegmentLane {
    var ran: bool
    var held: nat
    var msgs: nat
    var bytes: nat
    var discarding: bool

    function State(): Segment
      reads this
    {
      Segment(ran, held, msgs, bytes, discarding)
    }

    constructor ()
      ensures State() == NO_SEGMENT
    {
      ran, held, msgs, bytes, discarding := false, 0, 0, 0, false;
    }

    /** Accumulates a charge; a negative one is ignored, and the counter
        saturates where a 64-bit addition would wrap. */
    method Charge(n: int)
      modifies this
      ensures State() == if n < 0 then old(State()) else AddBytes(old(State()), n)
      ensures old(bytes) <= MAX_INT64 && n <= MAX_INT64 ==> old(bytes) <= bytes <= MAX_INT64
    {
      if n < 0 {
        return;
      }
      if bytes > MAX_INT64 - n {
        bytes := MAX_INT64;
        return;
      }
      bytes := bytes + n;
    }

    /** Header-first admission; `in_` says the frame goes on to the decoder,
        `alive` that the session goes on at all. Only an extended frame other than
        Sync is counted, and it is let in only by a segment that is not discarding,
        counted and charged, within both caps; a living session that keeps one out
        is discarding, and stays so. The reservation is not touched. */
    method AdmitFrame(cfg: Config, m: Msg, declared: nat, writeFails: bool, ghost s: Session, ghost a: Answers)
      returns (in_: bool, alive: bool)
      requires s.seg == State() && a.writeFails == writeFails && s.pc.Waiting?
      modifies this
      ensures var adm := AdmitSegmentFrame(cfg, s, m, declared, a);
              State() == adm.s.seg && in_ == adm.Admit? && alive == !adm.Stop?
      ensures held == old(held)
      ensures !Extended(m) || m.Sync? ==> in_ && State() == old(State())
      ensures Extended(m) && !m.Sync? && in_ ==> !old(discarding) && !discarding && WithinCaps(cfg, State())
      ensures Extended(m) && !m.Sync? && in_ && old(bytes) + declared <= MAX_INT64 ==>
                msgs == old(msgs) + 1 && bytes == old(bytes) + declared
      ensures !in_ && alive ==> discarding
      ensures old(discarding) ==> discarding && msgs == old(msgs) && bytes == old(bytes)
      ensures in_ ==> alive
    {
      if !Extended(m) || m.Sync? {
        return true, true;
      }
      AdmissionOnSegment(cfg, s, m, declared, a);
      if discarding {
        if m.Flush? {
          if writeFails {
            return false, false;
          }
          ran := false;
        }
        return false, true;
      }
      msgs := msgs + 1;
      Charge(declared);
      if msgs <= cfg.messageCap && bytes <= cfg.byteCap {
        return true, true;
      }
      if writeFails {
        return false, false;
      }
      discarding := true;
      return false, true;
    }

    /** Takes the working set once per segment: what the lane gains the segment
        gains, the lane stays within its limit, and a segment that holds something
        asks for nothing. A refusal leaves both alone, and there was no room. */
    method Reserve(cfg: Config, lane: GeneralLane) returns (ok: bool)
      requires 0 <= lane.used <= lane.limit
      modifies this`held, lane
      ensures (lane.State(), State(), ok) == ReserveSegment(cfg, old(lane.State()), old(State()))
      ensures lane.used - old(lane.used) == held - old(held) && lane.used <= lane.limit
      ensures old(held) > 0 ==> ok && held == old(held)
      ensures ok && old(held) == 0 ==> held == WorkingSet(cfg, lane.State())
      ensures !ok ==> held == 0 && lane.used == old(lane.used) && lane.used + WorkingSet(cfg, lane.State()) > lane.limit
    {
      if held > 0 {
        return true;
      }
      var want := if cfg.lim.watermark > lane.limit then lane.limit else cfg.lim.watermark;
      ok := lane.ReserveWaiting(want);
      if ok {
        held := want;
      }
    }

    /** Gives back what the segment holds, once: a second call changes nothing. */
    method ReleaseTo(lane: GeneralLane)
      modifies this`held, lane
      ensures held == 0
      ensures lane.State() == Release(old(lane.State()), old(held))
      ensures old(held) <= old(lane.used) ==> lane.used == old(lane.used) - old(held)
      ensures old(held) == 0 ==> lane.used == old(lane.used)
    {
      if held > 0 {
        lane.ReleaseBytes(held);
        held := 0;
      }
    }

    /** A whole segment, with whatever the lane's other holders keep: what was taken
        is given back and the lane ends where it began. */
    method ReserveThenRelease(cfg: Config, lane: GeneralLane) returns (ok: bool)
      requires 0 <= lane.used <= lane.limit && held == 0
      modifies this`held, lane
      ensures held == 0 && lane.used == old(lane.used)
    {
      ok := Reserve(cfg, lane);
      ReleaseTo(lane);
    }
  }
}
