/** The process-wide output budget (frontdoor/general_lane.go). */
module GeneralLane {

  const PENDING_OUTPUT_WATERMARK := 4 * 1024 * 1024
  const DEFAULT_MAX_SESSIONS_GLOBAL := 256
  const GENERAL_LANE_CEILING := 4 * 1024 * 1024 * 1024

  datatype Lane = Lane(limit: nat, used: int)

  /** A reservation at the moment it is decided: granted exactly when it fits;
      a wait that ends without room is a refusal. */
  function Reserve(l: Lane, n: nat): (r: (Lane, bool)) {
    if l.used + n > l.limit then (l, false) else (l.(used := l.used + n), true)
  }

  function Release(l: Lane, n: nat): Lane {
    if n == 0 then l else l.(used := if l.used - n < 0 then 0 else l.used - n)
  }

  /** The lane object shared by every session. */
  class GeneralLane {
    const limit: nat
    var used: int

    function State(): Lane
      reads this
    {
      Lane(limit, used)
    }

    constructor (limit: nat)
      ensures State() == Lane(limit, 0)
    {
      this.limit, used := limit, 0;
    }

    /** A reservation at the moment its wait ends: with room, or with the
        budget spent. A request larger than the lane is refused without waiting. */
    method ReserveWaiting(n: nat) returns (ok: bool)
      requires 0 <= used
      modifies this
      ensures (State(), ok) == Reserve(old(State()), n)
    {
      if n > limit {
        return false;
      }
      if used + n > limit {
        return false;
      }
      used := used + n;
      return true;
    }

    method ReleaseBytes(n: nat)
      modifies this
      ensures State() == Release(old(State()), n)
    {
      if n == 0 {
        return;
      }
      used := used - n;
      if used < 0 {
        used := 0;
      }
    }
  }

  function EffectiveSessionCap(sessionCap: int): int {
    if sessionCap <= 0 then DEFAULT_MAX_SESSIONS_GLOBAL else sessionCap
  }

  function GeneralLaneFloor(sessionCap: int): int {
    EffectiveSessionCap(sessionCap) * PENDING_OUTPUT_WATERMARK
  }

  predicate ValidGeneralLane(bytes: int, sessionCap: int) {
    GeneralLaneFloor(sessionCap) <= bytes <= GENERAL_LANE_CEILING
  }

  // ---- reservations and releases, paired ----

  datatype Op = Take(n: nat) | Give(n: nat)

  /** A lane that starts empty, after any reservations and releases. */
  function LaneAfter(limit: nat, ops: seq<Op>): Lane {
    if ops == [] then Lane(limit, 0)
    else
      var l := LaneAfter(limit, ops[..|ops| - 1]);
      match ops[|ops| - 1]
      case Take(n) => Reserve(l, n).0
      case Give(n) => Release(l, n)
  }

  /** What is really owed: everything granted, less everything given back. */
  function Outstanding(limit: nat, ops: seq<Op>): int {
    if ops == [] then 0
    else
      var init := ops[..|ops| - 1];
      match ops[|ops| - 1]
      case Take(n) => Outstanding(limit, init) + if Reserve(LaneAfter(limit, init), n).1 then n else 0
      case Give(n) => Outstanding(limit, init) - n
  }

  /** Every release was of something granted and not yet given back. */
  predicate Paired(limit: nat, ops: seq<Op>) {
    ops == [] ||
    var init, last := ops[..|ops| - 1], ops[|ops| - 1];
    Paired(limit, init) && (last.Give? ==> last.n <= Outstanding(limit, init))
  }

  /** The count was right after every step. */
  predicate AlwaysExact(limit: nat, ops: seq<Op>) {
    LaneAfter(limit, ops).used == Outstanding(limit, ops) && (ops == [] || AlwaysExact(limit, ops[..|ops| - 1]))
  }

  lemma {:induction false} WithinLimit(limit: nat, ops: seq<Op>)
    ensures LaneAfter(limit, ops).limit == limit && 0 <= LaneAfter(limit, ops).used <= limit
    decreases |ops|
  {
    if ops != [] {
      WithinLimit(limit, ops[..|ops| - 1]);
    }
  }

  /** Over any sequence of reservations and releases the lane stays within its limit,
      and its count is what is owed at every moment if and only if every release is
      paired with a reservation: the clamp at zero hides exactly the others. */
  lemma {:induction false} ExactWhenPaired(limit: nat, ops: seq<Op>)
    ensures AlwaysExact(limit, ops) <==> Paired(limit, ops)
    ensures 0 <= LaneAfter(limit, ops).used <= limit
    decreases |ops|
  {
    WithinLimit(limit, ops);
    if ops != [] {
      ExactWhenPaired(limit, ops[..|ops| - 1]);
    }
  }

  // ---- what the floor is ----

  /** That many sessions take one working set each. */
  function Takes(n: nat): seq<Op> { seq(n, _ => Take(PENDING_OUTPUT_WATERMARK)) }

  lemma {:induction false} TakesGranted(limit: nat, n: nat)
    ensures Outstanding(limit, Takes(n)) == LaneAfter(limit, Takes(n)).used <= n * PENDING_OUTPUT_WATERMARK
    ensures n * PENDING_OUTPUT_WATERMARK <= limit <==> Outstanding(limit, Takes(n)) == n * PENDING_OUTPUT_WATERMARK
  {
    WithinLimit(limit, Takes(n));
    if n > 0 {
      assert Takes(n)[..n - 1] == Takes(n - 1);
      WithinLimit(limit, Takes(n - 1));
      TakesGranted(limit, n - 1);
    }
  }

  /** A lane is valid if and only if it is no larger than four gigabytes and every session
      there may be, 256 unless the cap says otherwise, can hold one working set at once. */
  lemma FloorIsFullOccupancy(bytes: nat, sessionCap: int)
    ensures var n := if sessionCap > 0 then sessionCap else 256;
            ValidGeneralLane(bytes, sessionCap) <==>
              Outstanding(bytes, Takes(n)) == n * PENDING_OUTPUT_WATERMARK && bytes <= 0x1_0000_0000
  {
    TakesGranted(bytes, EffectiveSessionCap(sessionCap));
  }
}
