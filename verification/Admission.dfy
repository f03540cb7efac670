/** Accept-time admission: every counter an accepted connection raises, and the
    ticket that gives all of it back (frontdoor/admission.go:89-280), with the
    caps a listener settles on (frontdoor/listener.go:548-637). */
module Admission {
  import opened Throttle

  const MAX_FRONTEND_CONNS := 320
  const PRE_AUTH_MAX_CONNS := 64
  const AUTH_WORKERS := 16
  const AUTH_FAILURES_PER_IP := 10
  const CONTROL_LANE_PER_CONN := 65536
  const DEFAULT_MAX_CONNS_PER_SOURCE := 50
  const MAX_INT64 := 0x7FFF_FFFF_FFFF_FFFF

  datatype Reason =
    | Admitted | ServerStopping | SourceThrottled | ConnectionCap | SourceConnCap | PreAuthConnCap
    | ControlLaneExhausted

  datatype Options = Options(
    maxConns: int, preAuthMaxConns: int, authWorkers: int, authFailuresPerIP: int, controlLaneBytes: int)

  datatype Caps = Caps(maxConns: nat, preAuthMax: nat, workers: nat, failures: nat, lane: nat)

  datatype CapsResult = Resolved(caps: Caps) | Rejected

  function OrDefault(v: int, def: int): int { if v == 0 then def else v }

  /** The control lane that many connections reserve, at CONTROL_LANE_PER_CONN each. */
  function LaneFor(conns: nat): nat { 65536 * conns }

  /** Settles one listener's budget, or refuses the configuration. What comes out
      covers every connection it will admit. */
  function ResolveCaps(opt: Options): (r: CapsResult)
    ensures r.Resolved? ==>
              && LaneFor(r.caps.maxConns) <= r.caps.lane
              && 0 < r.caps.preAuthMax <= r.caps.maxConns && r.caps.workers <= r.caps.preAuthMax
              && AUTH_FAILURES_PER_IP <= r.caps.failures
              && LaneFor(r.caps.maxConns) <= MAX_INT64
  {
    if opt.maxConns < 0 || opt.preAuthMaxConns < 0 || opt.authWorkers < 0 || opt.authFailuresPerIP < 0 ||
       opt.controlLaneBytes < 0 then Rejected
    else
      var maxConns := OrDefault(opt.maxConns, MAX_FRONTEND_CONNS);
      var preAuthMax := OrDefault(opt.preAuthMaxConns, PRE_AUTH_MAX_CONNS);
      var workers := OrDefault(opt.authWorkers, AUTH_WORKERS);
      var failures := OrDefault(opt.authFailuresPerIP, AUTH_FAILURES_PER_IP);
      if failures < AUTH_FAILURES_PER_IP then Rejected
      else if maxConns > MAX_INT64 / CONTROL_LANE_PER_CONN then Rejected
      else
        var floor := LaneFor(maxConns);
        var lane := if opt.controlLaneBytes == 0 then floor else opt.controlLaneBytes;
        if lane < floor || preAuthMax > maxConns then Rejected
        else Resolved(Caps(maxConns, preAuthMax, if workers < preAuthMax then workers else preAuthMax, failures, lane))
  }

  /** Every limit is spelled out. */
  predicate Explicit(opt: Options) {
    opt.maxConns > 0 && opt.preAuthMaxConns > 0 && opt.authWorkers > 0 && opt.authFailuresPerIP > 0 &&
    opt.controlLaneBytes > 0
  }

  predicate SomeNegative(opt: Options) {
    opt.maxConns < 0 || opt.preAuthMaxConns < 0 || opt.authWorkers < 0 || opt.authFailuresPerIP < 0 ||
    opt.controlLaneBytes < 0
  }

  /** A limit left at zero means its default, and a lane left at zero means one that
      covers the connections. */
  function SpelledOut(opt: Options): Options {
    var conns := if opt.maxConns == 0 then 320 else opt.maxConns;
    Options(conns,
            if opt.preAuthMaxConns == 0 then 64 else opt.preAuthMaxConns,
            if opt.authWorkers == 0 then 16 else opt.authWorkers,
            if opt.authFailuresPerIP == 0 then 10 else opt.authFailuresPerIP,
            if opt.controlLaneBytes == 0 then 64 * 1024 * conns else opt.controlLaneBytes)
  }

  /** Limits spelled out are taken as they are, but for workers beyond the anonymous
      allowance; and they are taken if and only if the throttle is not weakened, the
      allowance is no larger than the whole, and every connection's lane is there and
      countable in 64 bits. */
  lemma ExplicitExactly(opt: Options)
    requires Explicit(opt)
    ensures ResolveCaps(opt).Resolved? <==>
              && 10 <= opt.authFailuresPerIP && opt.preAuthMaxConns <= opt.maxConns
              && opt.maxConns * (64 * 1024) <= opt.controlLaneBytes && opt.maxConns * (64 * 1024) <= MAX_INT64
    ensures ResolveCaps(opt).Resolved? ==>
              var c := ResolveCaps(opt).caps;
              && c.maxConns == opt.maxConns && c.preAuthMax == opt.preAuthMaxConns
              && c.failures == opt.authFailuresPerIP && c.lane == opt.controlLaneBytes
              && c.workers <= opt.authWorkers && c.workers <= c.preAuthMax
              && (c.workers == opt.authWorkers || c.workers == c.preAuthMax)
  {
  }

  /** A negative limit is refused, and any other configuration is judged as the one with
      its defaults spelled out. */
  lemma ResolvesExactly(opt: Options)
    ensures SomeNegative(opt) ==> ResolveCaps(opt).Rejected?
    ensures !SomeNegative(opt) ==> Explicit(SpelledOut(opt)) && ResolveCaps(opt) == ResolveCaps(SpelledOut(opt))
  {
    if !SomeNegative(opt) {
      var conns := OrDefault(opt.maxConns, MAX_FRONTEND_CONNS);
      assert LaneFor(conns) == 64 * 1024 * conns;
    }
  }

  function PerSourceCap(maxConns: nat): nat {
    if 0 < maxConns < DEFAULT_MAX_CONNS_PER_SOURCE then maxConns else DEFAULT_MAX_CONNS_PER_SOURCE
  }

  /** One source may always hold something, and never more than all there is or fifty;
      it is the smaller of the two. */
  lemma OneSourceExactly(opt: Options)
    requires ResolveCaps(opt).Resolved?
    ensures var c := ResolveCaps(opt).caps;
            && 0 < PerSourceCap(c.maxConns) <= c.maxConns && PerSourceCap(c.maxConns) <= 50
            && (PerSourceCap(c.maxConns) == c.maxConns || PerSourceCap(c.maxConns) == 50)
  {
  }

  /** The engine's front-door gate. */
  class WireGate {
    var open: bool
    var count: nat

    method AdmitWireConnection() returns (ok: bool)
      modifies this`count
      ensures ok == open && count == old(count) + if ok then 1 else 0
    {
      ok := open;
      if ok {
        count := count + 1;
      }
    }

    method Release()
      requires count > 0
      modifies this`count
      ensures count == old(count) - 1
    {
      count := count - 1;
    }
  }

  ghost function TicketsOf(ts: set<Ticket>, host: string): set<Ticket> {
    set t | t in ts && t.host == host
  }

  ghost predicate CountsSource(m: map<string, nat>, ts: set<Ticket>, cap: nat, h: string) {
    if TicketsOf(ts, h) == {} then h !in m
    else h in m && m[h] == |TicketsOf(ts, h)| && (cap > 0 ==> m[h] <= cap)
  }

  ghost predicate CountsSources(m: map<string, nat>, ts: set<Ticket>, cap: nat) {
    forall h :: CountsSource(m, ts, cap, h)
  }

  function Lookup(m: map<string, nat>, h: string): nat {
    if h in m then m[h] else 0
  }

  function OneMore(m: map<string, nat>, h: string): map<string, nat> {
    m[h := Lookup(m, h) + 1]
  }

  /** One connection fewer from this host; an entry that would reach zero is deleted. */
  function OneLess(m: map<string, nat>, h: string): map<string, nat> {
    if Lookup(m, h) > 1 then m[h := m[h] - 1] else m - {h}
  }

  lemma OneMoreSource(m: map<string, nat>, ts: set<Ticket>, cap: nat, t: Ticket)
    requires CountsSources(m, ts, cap) && t !in ts && (cap > 0 ==> Lookup(m, t.host) < cap)
    ensures CountsSources(OneMore(m, t.host), ts + {t}, cap)
  {
    var m', ts' := OneMore(m, t.host), ts + {t};
    forall h ensures CountsSource(m', ts', cap, h) {
      assert CountsSource(m, ts, cap, h);
      if h == t.host {
        assert TicketsOf(ts + {t}, h) == TicketsOf(ts, h) + {t};
      } else {
        assert TicketsOf(ts + {t}, h) == TicketsOf(ts, h);
      }
    }
  }

  lemma OneLessSource(m: map<string, nat>, ts: set<Ticket>, cap: nat, t: Ticket)
    requires CountsSources(m, ts, cap) && t in ts
    ensures t.host in m && m[t.host] > 0
    ensures CountsSources(OneLess(m, t.host), ts - {t}, cap)
  {
    assert CountsSource(m, ts, cap, t.host);
    assert t in TicketsOf(ts, t.host);
    var m', ts' := OneLess(m, t.host), ts - {t};
    forall h ensures CountsSource(m', ts', cap, h) {
      assert CountsSource(m, ts, cap, h);
      if h == t.host {
        assert TicketsOf(ts - {t}, h) == TicketsOf(ts, h) - {t};
        assert |TicketsOf(ts', h)| == m[h] - 1;
      } else {
        assert TicketsOf(ts - {t}, h) == TicketsOf(ts, h);
      }
    }
  }

  class Admitter {
    const gate: WireGate
    const window: FailureWindow
    const maxConns: nat
    const maxPreAuth: nat
    const laneBytes: nat
    const maxPerSource: nat

    var conns: nat
    var preAuth: nat
    var laneUsed: nat
    var perSource: map<string, nat>

    ghost var issued: set<Ticket>   // every ticket ever handed out
    ghost var live: set<Ticket>     // those not yet released
    ghost var waiting: set<Ticket>  // those not yet authenticated
    ghost var charged: set<Ticket>  // those counted against their source

    /** The per-source counters are what the charged tickets imply, with no entry at zero. */
    ghost predicate SourcesCounted()
      reads this`charged, this`perSource
    {
      CountsSources(perSource, charged, maxPerSource)
    }

    ghost predicate Tracked(t: Ticket)
      reads this`live, this`waiting, this`charged, t
    {
      && t.admitter == this && (t.released <==> t !in live) && (t.inPreAuth <==> t in waiting)
      && (t in charged <==> t in live || t.host == "")
    }

    /** A ticket is charged while it is live; one of an empty host is charged for ever. */
    ghost predicate TicketsTracked()
      reads this`live, this`issued, this`waiting, this`charged, issued
    {
      && waiting <= live <= charged <= issued
      && forall t :: t in issued ==> Tracked(t)
    }

    /** The totals are what the live tickets imply, and every cap holds. */
    ghost predicate TotalsCounted()
      reads this`conns, this`preAuth, this`laneUsed, this`live, this`waiting
    {
      && conns == |live| && preAuth == |waiting|
      && laneUsed == LaneFor(conns)
      && conns <= maxConns && preAuth <= maxPreAuth
    }

    /** Every counter is what the live tickets imply, and every cap holds. */
    ghost predicate Counted()
      reads this, issued
    {
      && TicketsTracked()
      && SourcesCounted()
      && TotalsCounted()
    }

    /** The engine's own count is every connection this admitter has let in. */
    ghost predicate Valid()
      reads this, issued, gate
    {
      Counted() && gate.count == |live|
    }

    constructor (caps: Caps, gate: WireGate, window: FailureWindow)
      requires gate.count == 0
      ensures Valid() && live == {} && issued == {} && this.gate == gate && this.window == window
      ensures maxConns == caps.maxConns && maxPreAuth == caps.preAuthMax && laneBytes == caps.lane
      ensures maxPerSource == PerSourceCap(caps.maxConns)
    {
      this.gate, this.window := gate, window;
      maxConns, maxPreAuth, laneBytes := caps.maxConns, caps.preAuthMax, caps.lane;
      maxPerSource := PerSourceCap(caps.maxConns);
      conns, preAuth, laneUsed, perSource := 0, 0, 0, map[];
      live, issued, waiting, charged := {}, {}, {}, {};
    }

    /** What stands in the way of one more connection from a host, in terms of the tickets
        there are; the bounds in the order in which they are told. */
    ghost predicate Met(r: Reason, host: string, throttled: bool)
      reads this
    {
      match r
      case SourceThrottled => throttled
      case ConnectionCap => |live| >= maxConns
      case SourceConnCap => maxPerSource > 0 && |TicketsOf(charged, host)| >= maxPerSource
      case PreAuthConnCap => |waiting| >= maxPreAuth
      case _ => false
    }

    static function Rank(r: Reason): nat {
      match r
      case SourceThrottled => 1
      case ConnectionCap => 2
      case SourceConnCap => 3
      case PreAuthConnCap => 4
      case _ => 5
    }

    /** On a lane that covers the connection cap: a connection is admitted if and only if
        nothing stands in its way, and otherwise the first thing that does is told. */
    lemma VerdictExactly(host: string, throttled: bool)
      requires Counted() && LaneFor(maxConns) <= laneBytes
      ensures Verdict(host, throttled) == Admitted <==> forall r :: !Met(r, host, throttled)
      ensures var v := Verdict(host, throttled);
              v != Admitted ==> Met(v, host, throttled) && forall r :: Met(r, host, throttled) ==> Rank(v) <= Rank(r)
    {
      assert CountsSource(perSource, charged, maxPerSource, host);
      assert SourceCount(host) == |TicketsOf(charged, host)|;
      if conns < maxConns {
        LaneCovers();
      }
      if Verdict(host, throttled) != Admitted {
        assert Met(Verdict(host, throttled), host, throttled);
      }
    }

    /** The count against a source is its live connections exactly when the source
        has a name, or no connection without one has ever ended. */
    lemma SourceCountExactly(host: string)
      requires Counted()
      ensures SourceCount(host) == |TicketsOf(live, host)| <==> host != "" || TicketsOf(issued - live, host) == {}
    {
      assert CountsSource(perSource, charged, maxPerSource, host);
      var gone := TicketsOf(issued - live, host);
      if host != "" {
        assert TicketsOf(charged, host) == TicketsOf(live, host);
      } else {
        assert TicketsOf(charged, host) == TicketsOf(live, host) + gone;
      }
    }

    function SourceCount(host: string): nat
      reads this`perSource
    {
      Lookup(perSource, host)
    }

    /** Why a connection would be refused: the first bound it meets, the
        throttle first. */
    function Verdict(host: string, throttled: bool): Reason
      reads this
    {
      if throttled then SourceThrottled
      else if conns >= maxConns then ConnectionCap
      else if maxPerSource > 0 && SourceCount(host) >= maxPerSource then SourceConnCap
      else if preAuth >= maxPreAuth then PreAuthConnCap
      else if laneUsed + CONTROL_LANE_PER_CONN > laneBytes then ControlLaneExhausted
      else Admitted
    }

    /** Reserves everything or nothing. On caps a listener resolved, the control
        lane is never what refuses. */
    method Admit(host: string, now: int) returns (t: Ticket?, reason: Reason)
      requires Valid() && window.Valid() && window.clock <= now
      modifies this, gate`count, window`failures, window`clock
      ensures Valid() && window.Valid() && window.clock == now
      ensures t == null <==> reason != Admitted
      ensures !gate.open ==> reason == ServerStopping
      ensures gate.open ==> reason == old(Verdict(host, window.Throttled(host, now)))
      ensures t == null ==> unchanged(this) && gate.count == old(gate.count)
      ensures t != null ==> fresh(t) && t.host == host && t.inPreAuth && !t.released
      ensures t != null ==> live == old(live) + {t} && issued == old(issued) + {t}
      ensures t != null ==> waiting == old(waiting) + {t} && charged == old(charged) + {t}
      ensures LaneFor(maxConns) <= laneBytes ==> reason != ControlLaneExhausted
    {
      var ok := gate.AdmitWireConnection();
      window.Advance(now);
      if !ok {
        return null, ServerStopping;
      }
      t, reason := AdmitLocked(host, now);
      if t == null {
        gate.Release();
      }
    }

    method AdmitLocked(host: string, now: int) returns (t: Ticket?, reason: Reason)
      requires Counted()
      requires window.Valid() && window.clock == now
      modifies this, window`failures, window`clock
      ensures window.Valid() && window.clock == now
      ensures t == null <==> reason != Admitted
      ensures reason == old(Verdict(host, window.Throttled(host, now)))
      ensures t == null ==> unchanged(this)
      ensures t != null ==> Counted() && fresh(t) && t.host == host && t.inPreAuth && !t.released
      ensures t != null ==> live == old(live) + {t} && issued == old(issued) + {t}
      ensures t != null ==> waiting == old(waiting) + {t} && charged == old(charged) + {t}
      ensures LaneFor(maxConns) <= laneBytes ==> reason != ControlLaneExhausted
    {
      var throttled := window.IsThrottled(host, now);
      if throttled {
        return null, SourceThrottled;
      }
      if conns >= maxConns {
        return null, ConnectionCap;
      }
      if maxPerSource > 0 && SourceCount(host) >= maxPerSource {
        return null, SourceConnCap;
      }
      if preAuth >= maxPreAuth {
        return null, PreAuthConnCap;
      }
      LaneCovers();
      if laneUsed + CONTROL_LANE_PER_CONN > laneBytes {
        return null, ControlLaneExhausted;
      }
      t := new Ticket(this, host);
      Enroll(t);
      reason := Admitted;
    }

    /** The four increments of an admission. */
    method Enroll(t: Ticket)
      requires Counted() && conns < maxConns && preAuth < maxPreAuth
      requires t.admitter == this && t !in issued && t.inPreAuth && !t.released
      requires maxPerSource > 0 ==> SourceCount(t.host) < maxPerSource
      modifies this
      ensures Counted() && live == old(live) + {t} && issued == old(issued) + {t}
      ensures waiting == old(waiting) + {t} && charged == old(charged) + {t}
    {
      CountIn(t);
      ChargeSource(t);
      issued := issued + {t};
    }

    method CountIn(t: Ticket)
      requires TotalsCounted() && conns < maxConns && preAuth < maxPreAuth && t !in live && t !in waiting
      modifies this`conns, this`preAuth, this`laneUsed, this`live, this`waiting
      ensures TotalsCounted() && live == old(live) + {t} && waiting == old(waiting) + {t}
    {
      conns := conns + 1;
      preAuth := preAuth + 1;
      laneUsed := laneUsed + CONTROL_LANE_PER_CONN;
      live, waiting := live + {t}, waiting + {t};
    }

    method CountOut(t: Ticket)
      requires TotalsCounted() && t in live && (t.inPreAuth <==> t in waiting)
      modifies this`conns, this`preAuth, this`laneUsed, this`live, this`waiting, t`inPreAuth
      ensures TotalsCounted() && live == old(live) - {t} && waiting == old(waiting) - {t} && !t.inPreAuth
    {
      conns := conns - 1;
      if t.inPreAuth {
        preAuth := preAuth - 1;
        t.inPreAuth := false;
      }
      laneUsed := laneUsed - CONTROL_LANE_PER_CONN;
      live, waiting := live - {t}, waiting - {t};
    }

    /** One connection more from this host. */
    method ChargeSource(t: Ticket)
      requires SourcesCounted() && t !in charged && (maxPerSource > 0 ==> SourceCount(t.host) < maxPerSource)
      modifies this`perSource, this`charged
      ensures SourcesCounted() && charged == old(charged) + {t}
    {
      OneMoreSource(perSource, charged, maxPerSource, t);
      perSource := perSource[t.host := SourceCount(t.host) + 1];
      charged := charged + {t};
    }

    /** One connection fewer from this host, if the host has a name; an entry that
        would reach zero is deleted. */
    method UnchargeSource(t: Ticket)
      requires SourcesCounted() && t in charged
      modifies this`perSource, this`charged
      ensures SourcesCounted() && charged == if t.host != "" then old(charged) - {t} else old(charged)
    {
      if t.host != "" {
        OneLessSource(perSource, charged, maxPerSource, t);
        var n := perSource[t.host] - 1;
        perSource := if n > 0 then perSource[t.host := n] else perSource - {t.host};
        charged := charged - {t};
      }
    }

    /** The decrements of a release. */
    method Withdraw(t: Ticket)
      requires Counted() && t in live
      modifies this, t
      ensures Counted() && t.released && live == old(live) - {t} && issued == old(issued)
      ensures waiting == old(waiting) - {t}
      ensures charged == if t.host != "" then old(charged) - {t} else old(charged)
    {
      assert Tracked(t);
      t.released := true;
      CountOut(t);
      UnchargeSource(t);
      forall u | u in issued ensures Tracked(u) {
        assert old(Tracked(u));
      }
    }

    lemma LaneCovers()
      requires laneUsed == LaneFor(conns) && conns < maxConns
      ensures LaneFor(maxConns) <= laneBytes ==> laneUsed + CONTROL_LANE_PER_CONN <= laneBytes
    {
    }
  }

  /** One connection's reservation. */
  class Ticket {
    const admitter: Admitter
    const host: string
    var inPreAuth: bool
    var released: bool

    constructor (admitter: Admitter, host: string)
      ensures this.admitter == admitter && this.host == host && inPreAuth && !released
    {
      this.admitter, this.host := admitter, host;
      inPreAuth, released := true, false;
    }

    /** Gives the anonymous-peer slot back, once. */
    method LeavePreAuth()
      requires admitter.Valid() && this in admitter.issued
      modifies this`inPreAuth, admitter`preAuth, admitter`waiting
      ensures admitter.Valid() && admitter.waiting == old(admitter.waiting) - {this}
    {
      if !inPreAuth || released {
        return;
      }
      inPreAuth := false;
      admitter.preAuth := admitter.preAuth - 1;
      admitter.waiting := admitter.waiting - {this};
    }

    /** Gives everything back, exactly once however often it is asked. */
    method Release()
      requires admitter.Valid() && this in admitter.issued
      modifies this, admitter, admitter.gate`count
      ensures admitter.Valid() && released && this !in admitter.live
      ensures admitter.live == old(admitter.live) - {this} && admitter.issued == old(admitter.issued)
      ensures admitter.waiting == old(admitter.waiting) - {this}
      ensures admitter.charged == if host != "" then old(admitter.charged) - {this} else old(admitter.charged)
      ensures old(released) ==> unchanged(admitter) && admitter.gate.count == old(admitter.gate.count)
    {
      if released {
        return;
      }
      admitter.Withdraw(this);
      admitter.gate.Release();
    }
  }

  /** Nothing is live, and the source without a name is charged for `n` connections. */
  ghost predicate ChargedFor(a: Admitter, n: nat)
    reads a, a.issued, a.gate, a.window
  {
    && a.Valid() && a.window.Valid() && a.window.clock == 0 && a.window.history == map[]
    && a.window.failureLimit == AUTH_FAILURES_PER_IP && a.gate.open && a.live == {} && a.SourceCount("") == n
  }

  method FreshAdmitter() returns (a: Admitter)
    ensures fresh(a) && fresh(a.gate) && fresh(a.window) && ChargedFor(a, 0) && a.maxConns == MAX_FRONTEND_CONNS
    ensures a.maxPreAuth == PRE_AUTH_MAX_CONNS && a.laneBytes == LaneFor(a.maxConns)
    ensures a.maxPerSource == PerSourceCap(a.maxConns)
  {
    var gate := new WireGate;
    gate.open, gate.count := true, 0;
    var window := new FailureWindow(AUTH_FAILURES_PER_IP, 0);
    a := new Admitter(Caps(MAX_FRONTEND_CONNS, PRE_AUTH_MAX_CONNS, AUTH_WORKERS, AUTH_FAILURES_PER_IP,
                           LaneFor(MAX_FRONTEND_CONNS)), gate, window);
    assert TicketsOf(a.charged, "") == {} && CountsSource(a.perSource, a.charged, a.maxPerSource, "");
  }

  /** One connection without a named source comes and goes, at a gate that is open
      and on caps that leave room for it. */
  method ComesAndGoes(a: Admitter, ghost n: nat)
    requires ChargedFor(a, n) && 0 < a.maxConns && 0 < a.maxPreAuth && LaneFor(a.maxConns) <= a.laneBytes
    requires n < a.maxPerSource
    modifies a, a.gate`count, a.window`failures, a.window`clock
    ensures ChargedFor(a, n + 1)
  {
    assert a.window.Noted("") == [] && a.Verdict("", false) != ControlLaneExhausted;
    var t, reason := a.Admit("", 0);
    assert reason == Admitted;
    t.Release();
    OneMoreCharged(old(a.perSource), a.perSource, old(a.charged), t, a.maxPerSource);
  }

  lemma OneMoreCharged(m: map<string, nat>, m': map<string, nat>, ts: set<Ticket>, t: Ticket, cap: nat)
    requires CountsSource(m, ts, cap, t.host) && CountsSource(m', ts + {t}, cap, t.host) && t !in ts
    ensures Lookup(m', t.host) == Lookup(m, t.host) + 1
  {
    assert TicketsOf(ts + {t}, t.host) == TicketsOf(ts, t.host) + {t};
  }

  method FillSource() returns (a: Admitter)
    ensures fresh(a) && ChargedFor(a, a.maxPerSource) && a.maxConns == MAX_FRONTEND_CONNS
    ensures a.maxPerSource == PerSourceCap(a.maxConns)
  {
    a := FreshAdmitter();
    var n := 0;
    while n < a.maxPerSource
      invariant 0 <= n <= a.maxPerSource
      invariant ChargedFor(a, n) && fresh(a) && fresh(a.gate) && fresh(a.window)
    {
      ComesAndGoes(a, n);
      n := n + 1;
    }
  }

  /** On the default caps: one connection of an empty host comes and goes, and with
      nothing live its source still counts one; after as many as the per-source cap,
      with nothing live still, every later one is refused for that cap. */
  method EmptyHostWitness() returns (one: Admitter, full: Admitter)
    ensures one.Valid() && one.live == {} && one.SourceCount("") == 1
    ensures full.Valid() && full.live == {} && full.Verdict("", false) == SourceConnCap
  {
    one := FreshAdmitter();
    ComesAndGoes(one, 0);
    full := FillSource();
  }
}
