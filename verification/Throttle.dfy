/** The per-source failure window (frontdoor/admission.go:282-339, 361-440). */
module Throttle {

  const AUTH_FAILURE_WINDOW := 60_000_000_000  // one minute, in nanoseconds
  const FAILURE_SWEEP_THRESHOLD := 4096

  /** The plain definition: how many stamps lie after the cutoff. */
  function CountAfter(stamps: seq<int>, cutoff: int): nat {
    if stamps == [] then 0
    else CountAfter(stamps[..|stamps| - 1], cutoff) + if stamps[|stamps| - 1] > cutoff then 1 else 0
  }

  ghost predicate Ascending(stamps: seq<int>) {
    forall i, j :: 0 <= i < j < |stamps| ==> stamps[i] <= stamps[j]
  }

  /** The failures of the last minute, by their places in the history. */
  function LastMinute(stamps: seq<int>, now: int): set<nat> {
    set i: nat | i < |stamps| && now - stamps[i] < 60 * 1_000_000_000
  }

  /** What the window counts are the failures less than a minute old. */
  lemma {:induction false} CountsLastMinute(stamps: seq<int>, now: int)
    ensures CountAfter(stamps, now - AUTH_FAILURE_WINDOW) == |LastMinute(stamps, now)|
    decreases |stamps|
  {
    if stamps == [] {
      assert LastMinute(stamps, now) == {};
    } else {
      var n := |stamps| - 1;
      CountsLastMinute(stamps[..n], now);
      var before := LastMinute(stamps[..n], now);
      assert LastMinute(stamps, now) == before + if now - stamps[n] < 60 * 1_000_000_000 then {n} else {};
    }
  }

  /** On an ascending history, what lies after the cutoff is a suffix. */
  lemma {:induction false} CountIsSuffix(stamps: seq<int>, cutoff: int, i: nat)
    requires Ascending(stamps) && i <= |stamps|
    requires forall k :: 0 <= k < i ==> stamps[k] <= cutoff
    requires forall k :: i <= k < |stamps| ==> stamps[k] > cutoff
    ensures CountAfter(stamps, cutoff) == |stamps| - i
    decreases |stamps|
  {
    if stamps != [] {
      var n := |stamps| - 1;
      CountIsSuffix(stamps[..n], cutoff, if i <= n then i else n);
    }
  }

  /** At least k stamps lie after the cutoff exactly when the k-th from the end does. */
  lemma {:induction false} AtLeast(stamps: seq<int>, cutoff: int, k: nat)
    requires Ascending(stamps) && 1 <= k
    ensures CountAfter(stamps, cutoff) >= k <==> |stamps| >= k && stamps[|stamps| - k] > cutoff
    decreases |stamps|
  {
    if stamps != [] {
      var n := |stamps| - 1;
      if stamps[n] > cutoff {
        if k > 1 {
          AtLeast(stamps[..n], cutoff, k - 1);
        }
      } else {
        CountIsSuffix(stamps, cutoff, |stamps|);
      }
    }
  }

  /** `kept` is the end of `all`. */
  ghost predicate Suffix(kept: seq<int>, all: seq<int>) {
    && |kept| <= |all|
    && forall k :: 0 <= k < |kept| ==> kept[k] == all[|all| - |kept| + k]
  }

  /** What is kept of an ascending history is its end, short only of stamps that
      had left the window by the latest time seen. */
  ghost predicate Keeps(all: seq<int>, kept: seq<int>, clock: int) {
    && Ascending(all) && (forall i :: 0 <= i < |all| ==> all[i] <= clock)
    && Suffix(kept, all)
    && forall i :: 0 <= i < |all| - |kept| ==> all[i] <= clock - AUTH_FAILURE_WINDOW
  }

  lemma KeepsLater(all: seq<int>, kept: seq<int>, clock: int, now: int)
    requires Keeps(all, kept, clock) && clock <= now
    ensures Keeps(all, kept, now)
  {
  }

  ghost predicate PrunedTo(kept: seq<int>, cutoff: int, live: seq<int>) {
    && Suffix(live, kept)
    && (forall k :: 0 <= k < |kept| - |live| ==> kept[k] <= cutoff)
    && (live != [] ==> live[0] > cutoff)
  }

  /** Pruning what is kept gives exactly what the plain count counts. */
  lemma PrunedCounts(all: seq<int>, kept: seq<int>, now: int, live: seq<int>)
    requires Keeps(all, kept, now) && PrunedTo(kept, now - AUTH_FAILURE_WINDOW, live)
    ensures |live| == CountAfter(all, now - AUTH_FAILURE_WINDOW)
    ensures Keeps(all, live, now)
  {
    var i := |all| - |live|;
    forall k | 0 <= k < i ensures all[k] <= now - AUTH_FAILURE_WINDOW {
      if k >= |all| - |kept| {
        assert all[k] == kept[k - (|all| - |kept|)];
      }
    }
    assert forall k :: 0 <= k < |live| ==> live[k] == kept[|kept| - |live| + k] == all[i + k];
    CountIsSuffix(all, now - AUTH_FAILURE_WINDOW, i);
  }

  lemma KeepsNoted(all: seq<int>, live: seq<int>, now: int)
    requires Keeps(all, live, now)
    ensures Keeps(all + [now], live + [now], now)
  {
  }

  /** Drops the stamps at or before the cutoff, scanning from the front. */
  method Prune(stamps: seq<int>, cutoff: int) returns (live: seq<int>)
    ensures PrunedTo(stamps, cutoff, live)
  {
    var i := 0;
    while i < |stamps| && stamps[i] <= cutoff
      invariant 0 <= i <= |stamps|
      invariant forall k :: 0 <= k < i ==> stamps[k] <= cutoff
    {
      i := i + 1;
    }
    if i == 0 {
      return stamps;
    }
    return stamps[i..];
  }

  lemma {:induction false} CountMisses(stamps: seq<int>, cutoff: int, p: nat, j: nat)
    requires p <= j < |stamps| && stamps[j] <= cutoff
    requires forall k :: 0 <= k < p ==> stamps[k] <= cutoff
    ensures CountAfter(stamps, cutoff) < |stamps| - p
    decreases |stamps|
  {
    var n := |stamps| - 1;
    if j < n {
      CountMisses(stamps[..n], cutoff, p, j);
    } else {
      CountAtMost(stamps[..n], cutoff, p);
    }
  }

  lemma {:induction false} CountAtMost(stamps: seq<int>, cutoff: int, p: nat)
    requires p <= |stamps| && forall k :: 0 <= k < p ==> stamps[k] <= cutoff
    ensures CountAfter(stamps, cutoff) <= |stamps| - p
    decreases |stamps|
  {
    if stamps != [] {
      var n := |stamps| - 1;
      CountAtMost(stamps[..n], cutoff, if p <= n then p else n);
    }
  }

  ghost predicate PruningCounts(stamps: seq<int>) {
    forall cutoff, live :: PrunedTo(stamps, cutoff, live) ==> |live| == CountAfter(stamps, cutoff)
  }

  /** Why the clock must not run backwards: pruning from the front agrees with
      the plain count at every cutoff exactly when the stamps are in order. */
  lemma PruningExactlyWhenAscending(stamps: seq<int>)
    ensures PruningCounts(stamps) <==> Ascending(stamps)
  {
    if Ascending(stamps) {
      forall cutoff, live | PrunedTo(stamps, cutoff, live) ensures |live| == CountAfter(stamps, cutoff) {
        CountIsSuffix(stamps, cutoff, |stamps| - |live|);
      }
    } else {
      var i, j :| 0 <= i < j < |stamps| && stamps[i] > stamps[j];
      var cutoff := stamps[j];
      var p := 0;
      while stamps[p] <= cutoff
        invariant 0 <= p <= i && forall k :: 0 <= k < p ==> stamps[k] <= cutoff
        decreases i - p
      {
        p := p + 1;
      }
      CountMisses(stamps, cutoff, p, j);
      assert PrunedTo(stamps, cutoff, stamps[p..]);
    }
  }

  /** Two failures noted out of order: at a limit of two, what is stored throttles
      the source and the plain count does not. */
  lemma OutOfOrderWitness()
    ensures PrunedTo([2, 0], 1, [2, 0]) && |[2, 0]| >= 2 && CountAfter([2, 0], 1) == 1
  {
    assert [2, 0][..1] == [2] && [2][..0] == [];
  }

  class FailureWindow {
    const failureLimit: nat
    var failures: map<string, seq<int>>

    ghost var history: map<string, seq<int>>  // every failure ever noted
    ghost var clock: int                      // the latest time seen

    ghost function Noted(host: string): seq<int>
      reads this`history
    {
      if host in history then history[host] else []
    }

    function Stored(host: string): seq<int>
      reads this`failures
    {
      if host in failures then failures[host] else []
    }

    ghost predicate Valid()
      reads this
    {
      failureLimit >= 1 && forall host :: Keeps(Noted(host), Stored(host), clock)
    }

    /** The decision by its definition, over the full unpruned history. */
    ghost predicate Throttled(host: string, now: int)
      reads this`history
    {
      CountAfter(Noted(host), now - AUTH_FAILURE_WINDOW) >= failureLimit
    }

    constructor (limit: nat, now: int)
      requires limit >= 1
      ensures Valid() && failureLimit == limit && history == map[] && clock == now
    {
      failureLimit, failures, history, clock := limit, map[], map[], now;
    }

    ghost method Advance(now: int)
      requires Valid() && clock <= now
      modifies this`clock
      ensures Valid() && clock == now
    {
      forall h ensures Keeps(Noted(h), Stored(h), now) {
        KeepsLater(Noted(h), Stored(h), clock, now);
      }
      clock := now;
    }

    /** Nothing expired is stored for the host. */
    predicate Fresh(host: string, now: int)
      reads this`failures
    {
      host in failures ==> failures[host] != [] && failures[host][0] > now - AUTH_FAILURE_WINDOW
    }

    /** Replaces what is stored for one host by its pruned form; an empty one is deleted. */
    method Keep(host: string, live: seq<int>, now: int)
      requires Valid() && clock == now && PrunedTo(Stored(host), now - AUTH_FAILURE_WINDOW, live)
      modifies this`failures
      ensures Valid()
      ensures |live| == CountAfter(Noted(host), now - AUTH_FAILURE_WINDOW)
      ensures Stored(host) == live && (host in failures <==> live != [])
      ensures Fresh(host, now)
      ensures forall h :: old(Fresh(h, now)) ==> Fresh(h, now)
      ensures forall h :: h != host ==> (h in failures <==> h in old(failures)) && Stored(h) == old(Stored(h))
    {
      PrunedCounts(Noted(host), Stored(host), now, live);
      if live == [] {
        failures := failures - {host};
      } else {
        failures := failures[host := live];
      }
    }

    /** Records one failure; prunes the host, and sweeps when the map has grown. */
    method NoteFailure(host: string, now: int)
      requires Valid() && clock <= now
      modifies this
      ensures Valid() && clock == now
      ensures history == old(history)[host := old(Noted(host)) + [now]]
      ensures |failures| <= 4096 || forall h :: Fresh(h, now)
    {
      Advance(now);
      var live := Prune(Stored(host), now - AUTH_FAILURE_WINDOW);
      PrunedCounts(Noted(host), Stored(host), now, live);
      KeepsNoted(Noted(host), live, now);
      label before:
      failures := failures[host := live + [now]];
      history := history[host := Noted(host) + [now]];
      forall h ensures Keeps(Noted(h), Stored(h), clock) {
        assert h != host ==> Noted(h) == old@before(Noted(h)) && Stored(h) == old@before(Stored(h));
      }
      if |failures| > FAILURE_SWEEP_THRESHOLD {
        Sweep(now);
      }
    }

    /** The stored decision is the plain one, for any interleaving of failures,
        decisions, sweeps and snapshots under a non-decreasing clock. */
    method IsThrottled(host: string, now: int) returns (yes: bool)
      requires Valid() && clock <= now
      modifies this`failures, this`clock
      ensures Valid() && clock == now
      ensures yes <==> Throttled(host, now)
      ensures |Stored(host)| == CountAfter(Noted(host), now - AUTH_FAILURE_WINDOW)
      ensures forall h :: h != host ==> (h in failures <==> h in old(failures)) && Stored(h) == old(Stored(h))
    {
      Advance(now);
      var live := Prune(Stored(host), now - AUTH_FAILURE_WINDOW);
      Keep(host, live, now);
      return live != [] && |live| >= failureLimit;
    }

    /** Drops the hosts whose failures have all expired and prunes the others. */
    method Sweep(now: int)
      requires Valid() && clock <= now
      modifies this`failures, this`clock
      ensures Valid() && clock == now
      ensures forall h :: Fresh(h, now)
    {
      Advance(now);
      var left := failures.Keys;
      while left != {}
        invariant Valid() && clock == now
        invariant forall h :: h !in left ==> Fresh(h, now)
        decreases |left|
      {
        var host :| host in left;
        left := left - {host};
        var live := Prune(Stored(host), now - AUTH_FAILURE_WINDOW);
        Keep(host, live, now);
      }
    }

    /** The reported wait is exact: with no new failure the host is throttled at
        every instant before now plus the wait, and at none from then on. */
    method Remaining(host: string, now: int) returns (wait: int)
      requires Valid() && clock == now
      requires |Stored(host)| == CountAfter(Noted(host), now - AUTH_FAILURE_WINDOW)
      ensures Throttled(host, now) ==> wait > 0
      ensures !Throttled(host, now) ==> wait == 0
      ensures Throttled(host, now) ==> forall t :: now <= t ==> (Throttled(host, t) <==> t < now + wait)
    {
      var live := Stored(host);
      if |live| < failureLimit {
        return 0;
      }
      ghost var all := Noted(host);
      assert Keeps(all, live, clock);
      assert live[|live| - failureLimit] == all[|all| - failureLimit];
      var lifts := live[|live| - failureLimit] + AUTH_FAILURE_WINDOW;
      forall t | now <= t ensures Throttled(host, t) <==> t < lifts {
        AtLeast(all, t - AUTH_FAILURE_WINDOW, failureLimit);
      }
      return if lifts - now > 0 then lifts - now else 0;
    }

    /** The view and the decision agree: the hosts listed are exactly those the
        plain definition throttles. */
    method ThrottledSources(now: int) returns (out: set<string>)
      requires Valid() && clock <= now
      modifies this`failures, this`clock
      ensures Valid() && clock == now
      ensures forall h :: h in out <==> Throttled(h, now)
    {
      Advance(now);
      out := {};
      forall h | h !in failures ensures !Throttled(h, now) {
        PrunedCounts(Noted(h), [], now, []);
      }
      var left := failures.Keys;
      while left != {}
        invariant Valid() && clock == now
        invariant forall h :: h !in left ==> (h in out <==> Throttled(h, now))
        invariant forall h :: h in left ==> h !in out
        decreases |left|
      {
        var host :| host in left;
        var yes := IsThrottled(host, now);
        left := left - {host};
        if yes {
          out := out + {host};
        }
      }
    }
  }
}
