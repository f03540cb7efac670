/** The shutdown protocol of the front door's listener: the accept loop, its
    handlers, the pressure loop and any number of Close callers, interleaved in
    every order (frontdoor/listener.go:643-787 and 1458-1484,
    frontdoor/accept_token.go:91-127, frontdoor/pressure_loop.go:59-76).

    Every shared counter is moved by the act that moves it in the source: a
    registration, an admission, a release, a Done. A step that is not enabled
    leaves the state alone, so a run is any sequence of steps at all. */
module AcceptBarrier {
  import opened Admission

  /** Who holds acceptMu. */
  datatype Owner = Free | ByAccept | ByPressure | ByCloser(i: nat)

  /** Where a registration under acceptMu stands: `Cleared` has seen the listener
      open and has not yet added to the wait group. */
  datatype Registration = Idle | Holding | Cleared

  datatype Once = Fresh | Running | Done

  datatype Closer = Called | Sweeping | PastOnce | AtBarrier | Waiting | Returned

  /** What a connection's owner does next. A refused one is dropped by the accept
      loop; a served one is discharged through its token, last acquired first. */
  datatype Stage =
    | Arriving | Refused | Dropping
    | Serving | Unlisting | HangingUp | Announcing | Releasing
    | Finishing | Gone

  datatype Handler = Handler(
    stage: Stage,
    served: bool,      // was admitted
    ticket: bool,      // holds an admission ticket
    listed: bool,      // in the live set Close ends
    open: bool,        // its socket
    releases: nat,     // tickets given back
    announced: nat,    // closing events written
    dones: nat)        // wait-group registrations given back

  datatype State = State(
    closed: bool,
    mu: Owner,
    accept: Registration,
    pressure: Registration,
    ticking: bool,            // the pressure loop is registered and running
    once: Once,
    closers: seq<Closer>,
    wg: int,
    conns: int,
    lane: int,
    handlers: seq<Handler>)

  datatype AcceptStep = AcceptLock | AcceptCheck | AcceptAdd

  datatype PressStep = PressLock | PressCheck | PressAdd | PressStop

  /** What the owner of one connection may do: the accept loop's verdict, then the
      handler's own acts. A Fault may or may not have reserved a ticket. */
  datatype Act = Admit | Refuse | Fault(reserved: bool) | Track | Discharge | Leave

  datatype CloseStep = EnterOnce | Sweep | JoinOnce | BarrierLock | BarrierUnlock | Return

  datatype Step =
    | Accepts(accept: AcceptStep) | Presses(press: PressStep) | Serve(h: nat, act: Act)
    | CallClose | Closes(c: nat, close: CloseStep)

  function Init(): State {
    State(false, Free, Idle, Idle, false, Fresh, [], 0, 0, 0, [])
  }

  function NewHandler(): Handler { Handler(Arriving, false, false, false, true, 0, 0, 0) }

  // ---- one connection ----

  /** The next act of a connection that is on its way out, in the token's order. */
  function LeaveStep(h: Handler): Handler {
    match h.stage
    case Refused => GivenBack(h).(stage := Dropping)
    case Dropping => h.(stage := Finishing, open := false)
    case Unlisting => h.(stage := HangingUp, listed := false)
    case HangingUp => h.(stage := Announcing, open := false)
    case Announcing => h.(stage := Releasing, announced := h.announced + 1)
    case Releasing => GivenBack(h).(stage := Finishing)
    case Finishing => h.(stage := Gone, dones := h.dones + 1)
    case _ => h
  }

  /** A release gives a ticket back if there is one. */
  function GivenBack(h: Handler): Handler {
    if h.ticket then h.(ticket := false, releases := h.releases + 1) else h
  }

  /** What one connection's owner does to it. */
  function HandlerAfter(h: Handler, act: Act): Handler {
    match act
    case Admit => if h.stage == Arriving then h.(stage := Serving, served := true, ticket := true) else h
    case Refuse => if h.stage == Arriving then h.(stage := Refused) else h
    case Fault(reserved) => if h.stage == Arriving then h.(stage := Refused, ticket := reserved) else h
    case Track => if h.stage == Serving then h.(listed := true) else h
    case Discharge => if h.stage == Serving then h.(stage := Unlisting) else h
    case Leave => LeaveStep(h)
  }

  function TakeTicket(s: State): State { s.(conns := s.conns + 1, lane := s.lane + CONTROL_LANE_PER_CONN) }

  function ReturnTicket(s: State): State { s.(conns := s.conns - 1, lane := s.lane - CONTROL_LANE_PER_CONN) }

  /** What the same act does to the shared counters: an admission takes a ticket, a
      release returns it, and only the last act of a connection calls Done. */
  function Counters(s: State, h: Handler, act: Act): State {
    match act
    case Admit => if h.stage == Arriving then TakeTicket(s) else s
    case Fault(reserved) => if h.stage == Arriving && reserved then TakeTicket(s) else s
    case Leave =>
      (match h.stage
       case Refused => if h.ticket then ReturnTicket(s) else s
       case Releasing => ReturnTicket(s)
       case Finishing => s.(wg := s.wg - 1)
       case _ => s)
    case _ => s
  }

  function ServeNext(s: State, i: nat, act: Act): State {
    if i < |s.handlers|
    then Counters(s, s.handlers[i], act).(handlers := s.handlers[i := HandlerAfter(s.handlers[i], act)])
    else s
  }

  // ---- registration under acceptMu ----

  function AcceptNext(s: State, step: AcceptStep): State {
    match step
    case AcceptLock => if s.mu == Free && s.accept == Idle then s.(mu := ByAccept, accept := Holding) else s
    case AcceptCheck =>
      if s.accept != Holding then s
      else if s.closed then s.(mu := Free, accept := Idle)
      else s.(accept := Cleared)
    case AcceptAdd =>
      if s.accept == Cleared
      then s.(mu := Free, accept := Idle, wg := s.wg + 1, handlers := s.handlers + [NewHandler()]) else s
  }

  function PressNext(s: State, step: PressStep): State {
    match step
    case PressLock =>
      if s.mu == Free && s.pressure == Idle && !s.ticking then s.(mu := ByPressure, pressure := Holding) else s
    case PressCheck =>
      if s.pressure != Holding then s
      else if s.closed then s.(mu := Free, pressure := Idle)
      else s.(pressure := Cleared)
    case PressAdd =>
      if s.pressure == Cleared then s.(mu := Free, pressure := Idle, wg := s.wg + 1, ticking := true) else s
    case PressStop => if s.ticking && s.closed then s.(ticking := false, wg := s.wg - 1) else s
  }

  // ---- Close ----

  predicate CloserIs(s: State, c: nat, p: Closer) { c < |s.closers| && s.closers[c] == p }

  function SetCloser(s: State, c: nat, p: Closer): State
    requires c < |s.closers|
  {
    s.(closers := s.closers[c := p])
  }

  /** Close ends the connections that are in the live set at this moment. */
  function Ended(h: Handler): Handler { if h.listed then h.(open := false) else h }

  function EndedAll(hs: seq<Handler>): (r: seq<Handler>)
    ensures |r| == |hs| && forall i :: 0 <= i < |hs| ==> r[i] == Ended(hs[i])
  {
    seq(|hs|, i requires 0 <= i < |hs| => Ended(hs[i]))
  }

  function CloseNext(s: State, c: nat, step: CloseStep): State {
    match step
    case EnterOnce =>
      if CloserIs(s, c, Called) && s.once == Fresh
      then SetCloser(s, c, Sweeping).(once := Running, closed := true) else s
    case Sweep =>
      if CloserIs(s, c, Sweeping)
      then SetCloser(s, c, PastOnce).(once := Done, handlers := EndedAll(s.handlers)) else s
    case JoinOnce =>
      if CloserIs(s, c, Called) && s.once == Done then SetCloser(s, c, PastOnce) else s
    case BarrierLock =>
      if CloserIs(s, c, PastOnce) && s.mu == Free then SetCloser(s, c, AtBarrier).(mu := ByCloser(c)) else s
    case BarrierUnlock =>
      if CloserIs(s, c, AtBarrier) then SetCloser(s, c, Waiting).(mu := Free) else s
    case Return =>
      if CloserIs(s, c, Waiting) && s.wg == 0 then SetCloser(s, c, Returned) else s
  }

  function Next(s: State, step: Step): State {
    match step
    case Accepts(a) => AcceptNext(s, a)
    case Presses(p) => PressNext(s, p)
    case Serve(i, act) => ServeNext(s, i, act)
    case CallClose => s.(closers := s.closers + [Called])
    case Closes(c, k) => CloseNext(s, c, k)
  }

  function Run(s: State, steps: seq<Step>): State
    decreases |steps|
  {
    if steps == [] then s else Run(Next(s, steps[0]), steps[1..])
  }

  lemma {:induction false} RunConcat(s: State, a: seq<Step>, b: seq<Step>)
    ensures Run(s, a + b) == Run(Run(s, a), b)
    decreases |a|
  {
    if a == [] {
      assert a + b == b;
    } else {
      assert (a + b)[0] == a[0] && (a + b)[1..] == a[1..] + b;
      RunConcat(Next(s, a[0]), a[1..], b);
    }
  }

  lemma RunOne(s: State, x: Step, rest: seq<Step>)
    ensures Run(s, [x] + rest) == Run(Next(s, x), rest)
  {
    assert ([x] + rest)[1..] == rest;
  }

  // ---- what every run keeps ----

  function Alive(h: Handler): nat { if h.stage == Gone then 0 else 1 }

  function Held(h: Handler): nat { if h.ticket then 1 else 0 }

  function AliveCount(hs: seq<Handler>): nat {
    if hs == [] then 0 else AliveCount(hs[..|hs| - 1]) + Alive(hs[|hs| - 1])
  }

  function HeldCount(hs: seq<Handler>): nat {
    if hs == [] then 0 else HeldCount(hs[..|hs| - 1]) + Held(hs[|hs| - 1])
  }

  /** What each stage has given back already, and what it still owes. */
  predicate HandlerOk(h: Handler) {
    && (h.listed ==> h.stage == Serving || h.stage == Unlisting)
    && (h.ticket ==> h.releases == 0)
    && h.releases <= 1 && h.announced <= 1
    && h.dones == (if h.stage == Gone then 1 else 0)
    && StageOk(h)
  }

  predicate StageOk(h: Handler) {
    match h.stage
    case Arriving => !h.served && !h.ticket && h.open && h.releases == 0 && h.announced == 0
    case Refused => !h.served && h.announced == 0 && h.releases == 0
    case Dropping => !h.served && !h.ticket && h.announced == 0
    case Serving => h.served && h.ticket && h.announced == 0
    case Unlisting => h.served && h.ticket && h.announced == 0
    case HangingUp => h.served && h.ticket && h.announced == 0
    case Announcing => h.served && h.ticket && !h.open && h.announced == 0
    case Releasing => h.served && h.ticket && !h.open && h.announced == 1
    case Finishing => GaveAllBack(h)
    case Gone => GaveAllBack(h)
  }

  predicate GaveAllBack(h: Handler) {
    !h.ticket && !h.open && (h.served ==> h.releases == 1 && h.announced == 1)
  }

  predicate HandlersOk(hs: seq<Handler>) {
    forall i :: 0 <= i < |hs| ==> HandlerOk(hs[i])
  }

  predicate Crossed(p: Closer) { p == AtBarrier || p == Waiting || p == Returned }

  predicate CloserOk(s: State, c: nat)
    requires c < |s.closers|
  {
    var p := s.closers[c];
    && (p != Called ==> s.closed)
    && (p == Sweeping ==> s.once == Running)
    && (p == AtBarrier ==> s.mu == ByCloser(c))
    && (Crossed(p) ==> s.accept != Cleared && s.pressure != Cleared)
    && (p == Returned ==> s.wg == 0)
  }

  predicate ClosersOk(s: State) {
    forall c :: 0 <= c < |s.closers| ==> CloserOk(s, c)
  }

  predicate MutexOk(s: State) {
    && (s.accept != Idle <==> s.mu == ByAccept)
    && (s.pressure != Idle <==> s.mu == ByPressure)
    && (s.ticking ==> s.pressure == Idle)
    && (s.once == Fresh <==> !s.closed)
  }

  predicate CountsOk(s: State) {
    && s.wg == AliveCount(s.handlers) + (if s.ticking then 1 else 0)
    && s.conns == HeldCount(s.handlers)
    && s.lane == LaneFor(HeldCount(s.handlers))
  }

  /** One Close ends the live set, and until it has, whatever is served is open. */
  ghost predicate SweepOk(s: State) {
    && (forall c, d :: CloserIs(s, c, Sweeping) && CloserIs(s, d, Sweeping) ==> c == d)
    && (s.once != Done ==> forall i :: 0 <= i < |s.handlers| && s.handlers[i].stage == Serving ==> s.handlers[i].open)
  }

  ghost predicate Ok(s: State) {
    MutexOk(s) && CountsOk(s) && HandlersOk(s.handlers) && ClosersOk(s) && SweepOk(s)
  }

  // ---- counting ----

  lemma {:induction false} CountPut(hs: seq<Handler>, i: nat, h: Handler)
    requires i < |hs|
    ensures AliveCount(hs[i := h]) == AliveCount(hs) - Alive(hs[i]) + Alive(h)
    ensures HeldCount(hs[i := h]) == HeldCount(hs) - Held(hs[i]) + Held(h)
  {
    var n := |hs| - 1;
    if i == n {
      assert hs[i := h][..n] == hs[..n];
    } else {
      assert hs[i := h][..n] == hs[..n][i := h];
      CountPut(hs[..n], i, h);
    }
  }

  lemma {:induction false} CountEnded(hs: seq<Handler>)
    ensures AliveCount(EndedAll(hs)) == AliveCount(hs) && HeldCount(EndedAll(hs)) == HeldCount(hs)
  {
    if hs != [] {
      assert EndedAll(hs)[..|hs| - 1] == EndedAll(hs[..|hs| - 1]);
      CountEnded(hs[..|hs| - 1]);
    }
  }

  lemma EndedOk(hs: seq<Handler>)
    requires HandlersOk(hs)
    ensures HandlersOk(EndedAll(hs))
  {
    forall i | 0 <= i < |hs| ensures HandlerOk(EndedAll(hs)[i]) {
      assert HandlerOk(hs[i]);
    }
  }

  lemma OneMoreHandler(hs: seq<Handler>)
    requires HandlersOk(hs)
    ensures HandlersOk(hs + [NewHandler()])
    ensures AliveCount(hs + [NewHandler()]) == AliveCount(hs) + 1 && HeldCount(hs + [NewHandler()]) == HeldCount(hs)
  {
    assert (hs + [NewHandler()])[..|hs|] == hs;
  }

  lemma {:induction false} CountsBound(hs: seq<Handler>)
    requires HandlersOk(hs)
    ensures HeldCount(hs) <= AliveCount(hs)
    ensures AliveCount(hs) == 0 <==> forall i :: 0 <= i < |hs| ==> hs[i].stage == Gone
  {
    if hs != [] {
      var n := |hs| - 1;
      CountsBound(hs[..n]);
      assert HandlerOk(hs[n]);
      if AliveCount(hs) == 0 {
        forall i | 0 <= i < |hs| ensures hs[i].stage == Gone {
          assert i < n ==> hs[..n][i] == hs[i];
        }
      } else if AliveCount(hs[..n]) != 0 {
        var i :| 0 <= i < n && hs[..n][i].stage != Gone;
        assert hs[i].stage != Gone;
      }
    }
  }

  // ---- a connection's owner ----

  lemma HandlerAfterOk(h: Handler, act: Act)
    requires HandlerOk(h)
    ensures HandlerOk(HandlerAfter(h, act)) && Alive(HandlerAfter(h, act)) <= Alive(h)
  {
  }

  /** The acts keep the counters in step with the connections: what each adds or
      gives back is what the connection gains or loses. */
  lemma ActBalances(s: State, h: Handler, act: Act)
    requires HandlerOk(h)
    ensures var t, g := Counters(s, h, act), HandlerAfter(h, act);
            && t.wg == s.wg - Alive(h) + Alive(g) && t.conns == s.conns - Held(h) + Held(g)
            && t.lane == s.lane + LaneFor(Held(g)) - LaneFor(Held(h))
            && t == s.(wg := t.wg, conns := t.conns, lane := t.lane)
  {
  }

  lemma ServeCounts(s: State, i: nat, act: Act)
    requires CountsOk(s) && HandlersOk(s.handlers) && i < |s.handlers|
    ensures CountsOk(ServeNext(s, i, act)) && HandlersOk(ServeNext(s, i, act).handlers)
    ensures ServeNext(s, i, act).wg <= s.wg
  {
    var h := s.handlers[i];
    HandlerAfterOk(h, act);
    ActBalances(s, h, act);
    CountPut(s.handlers, i, HandlerAfter(h, act));
  }

  /** The part of the state a connection's owner never touches. */
  lemma ServeFrame(s: State, i: nat, act: Act)
    ensures var t := ServeNext(s, i, act);
            t == s.(handlers := t.handlers, wg := t.wg, conns := t.conns, lane := t.lane)
  {
  }

  lemma ServeSweep(s: State, i: nat, act: Act)
    requires SweepOk(s) && HandlersOk(s.handlers) && i < |s.handlers|
    ensures SweepOk(ServeNext(s, i, act))
  {
    ServeFrame(s, i, act);
    var t := ServeNext(s, i, act);
    forall c, d | CloserIs(t, c, Sweeping) && CloserIs(t, d, Sweeping) ensures c == d {
      assert CloserIs(s, c, Sweeping) && CloserIs(s, d, Sweeping);
    }
    assert HandlerOk(s.handlers[i]);
  }

  lemma ServeKeeps(s: State, i: nat, act: Act)
    requires Ok(s)
    ensures Ok(ServeNext(s, i, act)) && ServeNext(s, i, act).wg <= s.wg
  {
    if i < |s.handlers| {
      ServeCounts(s, i, act);
      ServeFrame(s, i, act);
      ServeSweep(s, i, act);
      var t := ServeNext(s, i, act);
      CountsNeverNegative(t);
      forall c | 0 <= c < |t.closers| ensures CloserOk(t, c) {
        assert CloserOk(s, c);
      }
    }
  }

  lemma CountsNeverNegative(s: State)
    requires CountsOk(s)
    ensures s.wg >= 0 && s.conns >= 0 && s.lane >= 0
  {
  }

  // ---- registration ----

  lemma AcceptCounts(s: State, step: AcceptStep)
    requires CountsOk(s) && HandlersOk(s.handlers)
    ensures CountsOk(AcceptNext(s, step)) && HandlersOk(AcceptNext(s, step).handlers)
  {
    if step == AcceptAdd {
      OneMoreHandler(s.handlers);
    }
  }

  lemma AcceptSweep(s: State, step: AcceptStep)
    requires SweepOk(s)
    ensures SweepOk(AcceptNext(s, step))
  {
    var t := AcceptNext(s, step);
    forall c, d | CloserIs(t, c, Sweeping) && CloserIs(t, d, Sweeping) ensures c == d {
      assert CloserIs(s, c, Sweeping) && CloserIs(s, d, Sweeping);
    }
  }

  lemma AcceptKeeps(s: State, step: AcceptStep)
    requires Ok(s)
    ensures Ok(AcceptNext(s, step))
  {
    AcceptCounts(s, step);
    AcceptSweep(s, step);
    forall c | 0 <= c < |s.closers| ensures CloserOk(AcceptNext(s, step), c) {
      assert CloserOk(s, c);
    }
  }

  lemma PressKeeps(s: State, step: PressStep)
    requires Ok(s)
    ensures Ok(PressNext(s, step))
  {
    var t := PressNext(s, step);
    forall c | 0 <= c < |s.closers| ensures CloserOk(t, c) {
      assert CloserOk(s, c);
    }
    forall c, d | CloserIs(t, c, Sweeping) && CloserIs(t, d, Sweeping) ensures c == d {
      assert CloserIs(s, c, Sweeping) && CloserIs(s, d, Sweeping);
    }
  }

  // ---- Close ----

  lemma CloseMutex(s: State, c: nat, step: CloseStep)
    requires MutexOk(s) && ClosersOk(s)
    ensures MutexOk(CloseNext(s, c, step))
  {
    assert c < |s.closers| ==> CloserOk(s, c);
  }

  lemma CloseCounts(s: State, c: nat, step: CloseStep)
    requires CountsOk(s) && HandlersOk(s.handlers)
    ensures CountsOk(CloseNext(s, c, step)) && HandlersOk(CloseNext(s, c, step).handlers)
    ensures CloseNext(s, c, step).wg == s.wg
  {
    CountEnded(s.handlers);
    EndedOk(s.handlers);
  }

  lemma CloseSweep(s: State, c: nat, step: CloseStep)
    requires SweepOk(s) && ClosersOk(s)
    ensures SweepOk(CloseNext(s, c, step))
  {
    var t := CloseNext(s, c, step);
    forall a, b | CloserIs(t, a, Sweeping) && CloserIs(t, b, Sweeping) ensures a == b {
      assert CloserOk(s, a) && CloserOk(s, b);
      assert a != c ==> CloserIs(s, a, Sweeping);
      assert b != c ==> CloserIs(s, b, Sweeping);
    }
  }

  lemma OneCloserKept(s: State, c: nat, step: CloseStep, d: nat)
    requires Ok(s) && d < |s.closers|
    ensures CloserOk(CloseNext(s, c, step), d)
  {
    assert CloserOk(s, d);
    assert c < |s.closers| ==> CloserOk(s, c);
    assert step == Sweep && CloserIs(s, c, Sweeping) && CloserIs(s, d, Sweeping) ==> c == d;
  }

  lemma CloseKeeps(s: State, c: nat, step: CloseStep)
    requires Ok(s)
    ensures Ok(CloseNext(s, c, step)) && CloseNext(s, c, step).wg == s.wg
  {
    CloseMutex(s, c, step);
    CloseCounts(s, c, step);
    CloseSweep(s, c, step);
    forall d | 0 <= d < |s.closers| ensures CloserOk(CloseNext(s, c, step), d) {
      OneCloserKept(s, c, step, d);
    }
  }

  lemma CallKeeps(s: State)
    requires Ok(s)
    ensures Ok(Next(s, CallClose))
  {
    var t := Next(s, CallClose);
    forall c | 0 <= c < |t.closers| ensures CloserOk(t, c) {
      assert c < |s.closers| ==> CloserOk(s, c);
    }
    forall c, d | CloserIs(t, c, Sweeping) && CloserIs(t, d, Sweeping) ensures c == d {
      assert CloserIs(s, c, Sweeping) && CloserIs(s, d, Sweeping);
    }
  }

  lemma NextKeeps(s: State, step: Step)
    requires Ok(s)
    ensures Ok(Next(s, step))
  {
    match step
    case Accepts(a) => AcceptKeeps(s, a);
    case Presses(p) => PressKeeps(s, p);
    case Serve(i, act) => ServeKeeps(s, i, act);
    case CallClose => CallKeeps(s);
    case Closes(c, k) => CloseKeeps(s, c, k);
  }

  lemma {:induction false} RunKeeps(s: State, steps: seq<Step>)
    requires Ok(s)
    ensures Ok(Run(s, steps))
    decreases |steps|
  {
    if steps != [] {
      NextKeeps(s, steps[0]);
      RunKeeps(Next(s, steps[0]), steps[1..]);
    }
  }

  // ---- the promises of Close ----

  ghost predicate BarrierCrossed(s: State) {
    exists c :: 0 <= c < |s.closers| && Crossed(s.closers[c])
  }

  ghost predicate SomeCloseReturned(s: State) {
    exists c :: 0 <= c < |s.closers| && s.closers[c] == Returned
  }

  /** A caller that has crossed stays across, and one that has returned stays returned. */
  lemma CloserAdvances(s: State, step: Step, c: nat)
    requires c < |s.closers|
    ensures c < |Next(s, step).closers|
    ensures Crossed(s.closers[c]) ==> Crossed(Next(s, step).closers[c])
    ensures s.closers[c] == Returned ==> Next(s, step).closers[c] == Returned
  {
    if step.Serve? {
      ServeFrame(s, step.h, step.act);
    }
  }

  /** With no registration cleared, no step adds a connection or raises the counter. */
  lemma NoneAdded(s: State, step: Step)
    requires Ok(s) && s.accept != Cleared && s.pressure != Cleared
    ensures Next(s, step).wg <= s.wg && |Next(s, step).handlers| == |s.handlers|
  {
    match step
    case Serve(i, act) => ServeKeeps(s, i, act);
    case Closes(c, k) => CloseKeeps(s, c, k);
    case _ =>
  }

  lemma StepAfterBarrier(s: State, step: Step)
    requires Ok(s) && BarrierCrossed(s)
    ensures Next(s, step).wg <= s.wg && |Next(s, step).handlers| == |s.handlers| && BarrierCrossed(Next(s, step))
    ensures SomeCloseReturned(s) ==> SomeCloseReturned(Next(s, step))
  {
    var c :| 0 <= c < |s.closers| && Crossed(s.closers[c]);
    assert CloserOk(s, c);
    NoneAdded(s, step);
    CloserAdvances(s, step, c);
    if r :| 0 <= r < |s.closers| && s.closers[r] == Returned {
      CloserAdvances(s, step, r);
    }
  }

  lemma {:induction false} RunAfterBarrier(s: State, steps: seq<Step>)
    requires Ok(s) && BarrierCrossed(s)
    ensures Run(s, steps).wg <= s.wg && |Run(s, steps).handlers| == |s.handlers|
    ensures SomeCloseReturned(s) ==> SomeCloseReturned(Run(s, steps))
    decreases |steps|
  {
    if steps != [] {
      StepAfterBarrier(s, steps[0]);
      NextKeeps(s, steps[0]);
      RunAfterBarrier(Next(s, steps[0]), steps[1..]);
    }
  }

  /** Once any Close has crossed the barrier, whatever happens next: no connection
      is ever counted again and the wait group never rises. */
  lemma NeverRisesAfterBarrier(before: seq<Step>, after: seq<Step>)
    requires BarrierCrossed(Run(Init(), before))
    ensures Run(Init(), before + after).wg <= Run(Init(), before).wg
    ensures |Run(Init(), before + after).handlers| == |Run(Init(), before).handlers|
  {
    RunKeeps(Init(), before);
    RunAfterBarrier(Run(Init(), before), after);
    RunConcat(Init(), before, after);
  }

  /** Everything an accepted connection took has been given back, once. */
  predicate Settled(h: Handler) {
    && h.stage == Gone && h.dones == 1
    && !h.ticket && !h.listed && !h.open
    && (h.served ==> h.releases == 1 && h.announced == 1)
  }

  predicate Quiet(s: State) {
    && s.wg == 0 && s.conns == 0 && s.lane == 0 && !s.ticking
    && forall i :: 0 <= i < |s.handlers| ==> Settled(s.handlers[i])
  }

  lemma ZeroIsQuiet(s: State)
    requires Ok(s) && s.wg == 0
    ensures Quiet(s)
  {
    CountsBound(s.handlers);
    forall i | 0 <= i < |s.handlers| ensures Settled(s.handlers[i]) {
      assert HandlerOk(s.handlers[i]);
    }
  }

  /** When a Close returns, and ever after: no handler, no pressure loop, no
      connection counted and no control lane reserved. */
  lemma CloseReturnsQuiet(before: seq<Step>, after: seq<Step>)
    requires SomeCloseReturned(Run(Init(), before))
    ensures Quiet(Run(Init(), before + after))
  {
    var s := Run(Init(), before);
    RunKeeps(Init(), before);
    var c :| 0 <= c < |s.closers| && s.closers[c] == Returned;
    assert Crossed(s.closers[c]) && CloserOk(s, c);
    RunAfterBarrier(s, after);
    RunKeeps(s, after);
    RunConcat(Init(), before, after);
    var t := Run(s, after);
    CountsNeverNegative(t);
    ZeroIsQuiet(t);
  }

  /** In every run the counters are what the connections imply, none is ever
      negative, and each connection gives back its ticket, its announcement and
      its registration at most once and in that order. */
  lemma LedgerInEveryRun(steps: seq<Step>)
    ensures Ok(Run(Init(), steps))
    ensures var s := Run(Init(), steps); 0 <= s.conns <= s.wg && s.lane == LaneFor(s.conns)
    ensures forall i :: 0 <= i < |Run(Init(), steps).handlers| ==> HandlerOk(Run(Init(), steps).handlers[i])
  {
    RunKeeps(Init(), steps);
    CountsBound(Run(Init(), steps).handlers);
  }

  // ---- whom ending the live set reaches ----

  /** The live set has been ended, for good. */
  predicate SweepOver(s: State) {
    s.once == Done && forall c :: 0 <= c < |s.closers| ==> s.closers[c] != Sweeping
  }

  lemma SweepStaysOver(s: State, step: Step)
    requires SweepOver(s)
    ensures SweepOver(Next(s, step))
  {
    if step.Serve? {
      ServeFrame(s, step.h, step.act);
    }
  }

  /** Connection `i`, while it is arriving or served, has an open socket exactly
      when `spared` says so; one that is yet to arrive is spared. */
  predicate Fate(s: State, i: nat, spared: bool) {
    if i >= |s.handlers| then spared
    else s.handlers[i].stage == Arriving || s.handlers[i].stage == Serving ==> s.handlers[i].open == spared
  }

  lemma FateStays(s: State, step: Step, i: nat, spared: bool)
    requires Ok(s) && SweepOver(s) && Fate(s, i, spared)
    ensures Fate(Next(s, step), i, spared)
  {
    assert i < |s.handlers| ==> HandlerOk(s.handlers[i]);
  }

  lemma {:induction false} FateInRun(s: State, steps: seq<Step>, i: nat, spared: bool)
    requires Ok(s) && SweepOver(s) && Fate(s, i, spared)
    ensures Fate(Run(s, steps), i, spared)
    decreases |steps|
  {
    if steps != [] {
      NextKeeps(s, steps[0]);
      SweepStaysOver(s, steps[0]);
      FateStays(s, steps[0], i, spared);
      FateInRun(Next(s, steps[0]), steps[1..], i, spared);
    }
  }

  lemma SweepDecides(s: State, c: nat, i: nat)
    requires Ok(s) && CloserIs(s, c, Sweeping)
    ensures SweepOver(Next(s, Closes(c, Sweep)))
    ensures Fate(Next(s, Closes(c, Sweep)), i, i >= |s.handlers| || !s.handlers[i].listed)
  {
    assert CloserOk(s, c);
    assert i < |s.handlers| ==> HandlerOk(s.handlers[i]);
    var t := Next(s, Closes(c, Sweep));
    forall d | 0 <= d < |t.closers| ensures t.closers[d] != Sweeping {
      assert CloserIs(s, d, Sweeping) ==> d == c;
    }
  }

  /** Close ends the live set once. Whatever happened before and whatever follows, a
      connection that is being served afterwards has an open socket if and only
      if, at that moment, it had not arrived or its handler had not listed it. */
  lemma SweepReaches(before: seq<Step>, c: nat, after: seq<Step>, i: nat)
    requires CloserIs(Run(Init(), before), c, Sweeping)
    requires var t := Run(Init(), before + [Closes(c, Sweep)] + after);
             i < |t.handlers| && t.handlers[i].stage == Serving
    ensures var s, t := Run(Init(), before), Run(Init(), before + [Closes(c, Sweep)] + after);
            t.handlers[i].open <==> i >= |s.handlers| || !s.handlers[i].listed
  {
    var s := Run(Init(), before);
    RunKeeps(Init(), before);
    SweepDecides(s, c, i);
    NextKeeps(s, Closes(c, Sweep));
    RunConcat(Init(), before, [Closes(c, Sweep)]);
    RunOne(s, Closes(c, Sweep), []);
    assert [Closes(c, Sweep)] + [] == [Closes(c, Sweep)];
    RunConcat(Init(), before + [Closes(c, Sweep)], after);
    FateInRun(Next(s, Closes(c, Sweep)), after, i, i >= |s.handlers| || !s.handlers[i].listed);
  }

  // ---- a connection Close overlooks ----

  lemma RunThree(s: State, x: Step, y: Step, z: Step)
    ensures Run(s, [x, y, z]) == Next(Next(Next(s, x), y), z)
  {
    RunOne(s, x, [y, z]);
    RunOne(Next(s, x), y, [z]);
    RunOne(Next(Next(s, x), y), z, []);
    assert [x, y, z] == [x] + [y, z] && [y, z] == [y] + [z] && [z] == [z] + [];
  }

  /** A connection admitted just before Close. */
  function Arrived(): State { Init().(wg := 1, handlers := [NewHandler()]) }

  /** Close is about to end a live set that connection is not in. */
  function Overlooked(): State {
    State(true, Free, Idle, Idle, false, Running, [Sweeping], 1, 1, 65536, [HandlerAfter(NewHandler(), Admit)])
  }

  lemma ReachesArrived()
    ensures Run(Init(), [Accepts(AcceptLock), Accepts(AcceptCheck), Accepts(AcceptAdd)]) == Arrived()
  {
    RunThree(Init(), Accepts(AcceptLock), Accepts(AcceptCheck), Accepts(AcceptAdd));
    assert [] + [NewHandler()] == [NewHandler()];
  }

  lemma ReachesOverlooked()
    ensures Run(Arrived(), [Serve(0, Admit), CallClose, Closes(0, EnterOnce)]) == Overlooked()
  {
    RunThree(Arrived(), Serve(0, Admit), CallClose, Closes(0, EnterOnce));
    var a := Next(Arrived(), Serve(0, Admit));
    assert a == Arrived().(conns := 1, lane := 65536, handlers := [HandlerAfter(NewHandler(), Admit)]);
    assert [] + [Called] == [Called];
  }

  function Late(): State {
    Overlooked().(once := Done, mu := ByCloser(0), closers := [AtBarrier],
                  handlers := [HandlerAfter(HandlerAfter(NewHandler(), Admit), Track)])
  }

  lemma ReachesLate()
    ensures Run(Overlooked(), [Closes(0, Sweep), Serve(0, Track), Closes(0, BarrierLock)]) == Late()
  {
    RunThree(Overlooked(), Closes(0, Sweep), Serve(0, Track), Closes(0, BarrierLock));
    var swept := Next(Overlooked(), Closes(0, Sweep));
    assert swept == Overlooked().(once := Done, closers := [PastOnce]);
  }

  /** A connection that lists itself only after the live set was ended: a Close at
      the barrier waits on a socket nothing has closed. */
  lemma LateHandlerWitness() returns (steps: seq<Step>)
    ensures var s := Run(Init(), steps);
            && |s.handlers| == 1 && s.handlers[0].stage == Serving && s.handlers[0].open && s.handlers[0].listed
            && s.once == Done && s.closers == [AtBarrier]
  {
    var a := [Accepts(AcceptLock), Accepts(AcceptCheck), Accepts(AcceptAdd)];
    var b := [Serve(0, Admit), CallClose, Closes(0, EnterOnce)];
    var c := [Closes(0, Sweep), Serve(0, Track), Closes(0, BarrierLock)];
    steps := (a + b) + c;
    assert Run(Init(), steps) == Late() by {
      ReachesArrived();
      ReachesOverlooked();
      ReachesLate();
      RunConcat(Init(), a, b);
      RunConcat(Init(), a + b, c);
    }
  }
}
