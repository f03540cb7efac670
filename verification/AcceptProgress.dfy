/** That the listener's shutdown is never stuck, and that registration goes through exactly
    while the listener is open (frontdoor/listener.go:643-787 and 1458-1484,
    frontdoor/pressure_loop.go:59-76). */
module AcceptProgress {
  import opened AcceptBarrier

  // ---- adding up ----

  function Total<T>(xs: seq<T>, f: T -> nat): nat {
    if xs == [] then 0 else f(xs[0]) + Total(xs[1..], f)
  }

  lemma {:induction false} TotalPut<T>(xs: seq<T>, f: T -> nat, i: nat, x: T)
    requires i < |xs|
    ensures Total(xs[i := x], f) + f(xs[i]) == Total(xs, f) + f(x)
    decreases |xs|
  {
    if i > 0 {
      assert xs[i := x][1..] == xs[1..][i - 1 := x];
      TotalPut(xs[1..], f, i - 1, x);
    } else {
      assert xs[i := x][1..] == xs[1..];
    }
  }

  lemma {:induction false} TotalSnoc<T>(xs: seq<T>, f: T -> nat, x: T)
    ensures Total(xs + [x], f) == Total(xs, f) + f(x)
    decreases |xs|
  {
    if xs == [] {
      assert xs + [x] == [x];
    } else {
      assert (xs + [x])[1..] == xs[1..] + [x];
      TotalSnoc(xs[1..], f, x);
    }
  }

  lemma {:induction false} TotalSame<T>(xs: seq<T>, ys: seq<T>, f: T -> nat)
    requires |xs| == |ys| && forall i :: 0 <= i < |xs| ==> f(xs[i]) == f(ys[i])
    ensures Total(xs, f) == Total(ys, f)
    decreases |xs|
  {
    if xs != [] {
      TotalSame(xs[1..], ys[1..], f);
    }
  }

  // ---- what is still to be done ----

  /** How many acts its owner still has to take, at most. */
  function ActsLeft(h: Handler): nat {
    match h.stage
    case Arriving => 7
    case Serving => 6
    case Unlisting => 5
    case HangingUp => 4
    case Announcing => 3
    case Refused => 3
    case Releasing => 2
    case Dropping => 2
    case Finishing => 1
    case Gone => 0
  }

  function StepsLeft(p: Closer): nat {
    match p
    case Called => 5
    case Sweeping => 4
    case PastOnce => 3
    case AtBarrier => 2
    case Waiting => 1
    case Returned => 0
  }

  /** A registration that goes through brings its own work with it. */
  function RegistrationLeft(r: Registration, brings: nat): nat {
    match r
    case Idle => 0
    case Cleared => brings + 1
    case Holding => brings + 2
  }

  function Work(s: State): nat {
    Total(s.handlers, ActsLeft) + Total(s.closers, StepsLeft) + RegistrationLeft(s.accept, ActsLeft(NewHandler()))
    + RegistrationLeft(s.pressure, 1) + (if s.ticking then 1 else 0)
  }

  // ---- who holds what ----

  ghost predicate SomeSweeper(s: State) { exists c :: CloserIs(s, c, Sweeping) }

  /** The barrier is held by the Close at it, and a Once that is running has its caller. */
  ghost predicate Manned(s: State) {
    && (s.mu.ByCloser? ==> CloserIs(s, s.mu.i, AtBarrier))
    && (s.once == Running ==> SomeSweeper(s))
  }

  lemma CloseMans(s: State, c: nat, step: CloseStep)
    requires Ok(s) && Manned(s)
    ensures Manned(CloseNext(s, c, step))
  {
    var t := CloseNext(s, c, step);
    if t.mu.ByCloser? && s.mu.ByCloser? {
      assert CloserIs(s, s.mu.i, AtBarrier);
    }
    if t.once == Running {
      if s.once == Running {
        var d :| CloserIs(s, d, Sweeping);
        assert CloserIs(t, d, Sweeping);
      } else {
        assert CloserIs(t, c, Sweeping);
      }
    }
  }

  lemma NextMans(s: State, step: Step)
    requires Ok(s) && Manned(s)
    ensures Manned(Next(s, step))
  {
    var t := Next(s, step);
    match step
    case Closes(c, k) => CloseMans(s, c, k);
    case Serve(i, act) =>
      ServeFrame(s, i, act);
      SameClosers(s, t);
    case CallClose =>
      if s.mu.ByCloser? {
        assert CloserIs(t, s.mu.i, AtBarrier);
      }
      if s.once == Running {
        var d :| CloserIs(s, d, Sweeping);
        assert CloserIs(t, d, Sweeping);
      }
    case _ => SameClosers(s, t);
  }

  lemma SameClosers(s: State, t: State)
    requires Manned(s) && t.closers == s.closers && t.once == s.once && (t.mu.ByCloser? ==> t.mu == s.mu)
    ensures Manned(t)
  {
    if s.once == Running {
      var d :| CloserIs(s, d, Sweeping);
      assert CloserIs(t, d, Sweeping);
    }
  }

  lemma {:induction false} RunMans(s: State, steps: seq<Step>)
    requires Ok(s) && Manned(s)
    ensures Ok(Run(s, steps)) && Manned(Run(s, steps))
    decreases |steps|
  {
    if steps != [] {
      NextKeeps(s, steps[0]);
      NextMans(s, steps[0]);
      RunMans(Next(s, steps[0]), steps[1..]);
    }
  }

  // ---- somebody can always move ----

  predicate AllReturned(s: State) { forall c :: 0 <= c < |s.closers| ==> s.closers[c] == Returned }

  /** The server's own moves: no new connection, no new pressure loop, no new Close. */
  predicate Own(step: Step) {
    !step.CallClose? && step != Accepts(AcceptLock) && step != Presses(PressLock)
  }

  /** The owner's next act, whatever the stage. */
  function NextAct(h: Handler): Act {
    if h.stage == Arriving then Refuse else if h.stage == Serving then Discharge else Leave
  }

  lemma ActMoves(s: State, i: nat)
    requires i < |s.handlers| && s.handlers[i].stage != Gone
    ensures Work(Next(s, Serve(i, NextAct(s.handlers[i])))) < Work(s)
  {
    var act := NextAct(s.handlers[i]);
    ServeFrame(s, i, act);
    var h := HandlerAfter(s.handlers[i], act);
    assert ActsLeft(h) < ActsLeft(s.handlers[i]);
    TotalPut(s.handlers, ActsLeft, i, h);
  }

  lemma CloserMoves(s: State, c: nat, p: Closer, hs: seq<Handler>, t: State)
    requires c < |s.closers| && StepsLeft(p) < StepsLeft(s.closers[c]) && t.closers == s.closers[c := p]
    requires t.handlers == s.handlers || t.handlers == EndedAll(s.handlers)
    requires t.accept == s.accept && t.pressure == s.pressure && t.ticking == s.ticking
    ensures Work(t) < Work(s)
  {
    TotalPut(s.closers, StepsLeft, c, p);
    TotalSame(s.handlers, t.handlers, ActsLeft);
  }

  lemma {:induction false} SomeoneAlive(hs: seq<Handler>) returns (i: nat)
    requires AliveCount(hs) > 0
    ensures i < |hs| && hs[i].stage != Gone
  {
    i := |hs| - 1;
    if Alive(hs[i]) == 0 {
      i := SomeoneAlive(hs[..i]);
    }
  }

  /** A registration in progress gives acceptMu up. */
  lemma RegistrationMoves(s: State) returns (step: Step)
    requires Ok(s) && (s.mu == ByAccept || s.mu == ByPressure)
    ensures Own(step) && Work(Next(s, step)) < Work(s) && Next(s, step).closers == s.closers
  {
    if s.mu == ByAccept {
      step := Accepts(if s.accept == Holding then AcceptCheck else AcceptAdd);
      TotalSnoc(s.handlers, ActsLeft, NewHandler());
    } else {
      step := Presses(if s.pressure == Holding then PressCheck else PressAdd);
    }
  }

  /** A Close moves, or waits only for a connection or the pressure loop, which moves. */
  lemma CloseMoves(s: State, c: nat) returns (step: Step)
    requires Ok(s) && Manned(s) && s.mu == Free && c < |s.closers| && s.closers[c] != Returned
    ensures Own(step) && Work(Next(s, step)) < Work(s) && |Next(s, step).closers| == |s.closers|
  {
    assert CloserOk(s, c);
    match s.closers[c]
    case Called =>
      if s.once == Running {
        var d :| CloserIs(s, d, Sweeping);
        step := Closes(d, Sweep);
        CloserMoves(s, d, PastOnce, s.handlers, Next(s, step));
      } else {
        step := Closes(c, if s.once == Fresh then EnterOnce else JoinOnce);
        CloserMoves(s, c, if s.once == Fresh then Sweeping else PastOnce, s.handlers, Next(s, step));
      }
    case Sweeping =>
      step := Closes(c, Sweep);
      CloserMoves(s, c, PastOnce, s.handlers, Next(s, step));
    case PastOnce =>
      step := Closes(c, BarrierLock);
      CloserMoves(s, c, AtBarrier, s.handlers, Next(s, step));
    case AtBarrier => assert false;
    case Waiting => step := WaitMoves(s, c);
  }

  lemma WaitMoves(s: State, c: nat) returns (step: Step)
    requires Ok(s) && CloserIs(s, c, Waiting)
    ensures Own(step) && Work(Next(s, step)) < Work(s) && |Next(s, step).closers| == |s.closers|
  {
    assert CloserOk(s, c);
    if s.wg == 0 {
      step := Closes(c, Return);
      CloserMoves(s, c, Returned, s.handlers, Next(s, step));
    } else if s.ticking {
      step := Presses(PressStop);
    } else {
      var i := SomeoneAlive(s.handlers);
      step := Serve(i, NextAct(s.handlers[i]));
      ServeFrame(s, i, step.act);
      ActMoves(s, i);
    }
  }

  /** In every reachable state with a Close that has not returned, some move of the
      server's own brings the end nearer. */
  lemma SomethingMoves(s: State) returns (step: Step)
    requires Ok(s) && Manned(s) && !AllReturned(s)
    ensures Own(step) && Work(Next(s, step)) < Work(s) && |Next(s, step).closers| == |s.closers|
  {
    var c :| 0 <= c < |s.closers| && s.closers[c] != Returned;
    match s.mu
    case ByAccept => step := RegistrationMoves(s);
    case ByPressure => step := RegistrationMoves(s);
    case ByCloser(d) =>
      step := Closes(d, BarrierUnlock);
      CloserMoves(s, d, Waiting, s.handlers, Next(s, step));
    case Free => step := CloseMoves(s, c);
  }

  predicate AllOwn(steps: seq<Step>) { forall i :: 0 <= i < |steps| ==> Own(steps[i]) }

  lemma {:induction false} Drains(s: State) returns (steps: seq<Step>)
    requires Ok(s) && Manned(s)
    ensures AllOwn(steps) && AllReturned(Run(s, steps)) && |Run(s, steps).closers| == |s.closers|
    ensures |steps| <= Work(s)
    decreases Work(s)
  {
    steps := [];
    if !AllReturned(s) {
      var step := SomethingMoves(s);
      NextKeeps(s, step);
      NextMans(s, step);
      var rest := Drains(Next(s, step));
      steps := [step] + rest;
      RunOne(s, step, rest);
    }
  }

  /** No Close is ever stuck. Whatever has happened, the server's own moves can bring
      every Close that was called back, and each of those leaves everything quiet. */
  lemma EveryCloseCanReturn(before: seq<Step>) returns (after: seq<Step>)
    ensures AllOwn(after) && AllReturned(Run(Init(), before + after))
    ensures |Run(Init(), before + after).closers| == |Run(Init(), before).closers|
    ensures Run(Init(), before).closers != [] ==> Quiet(Run(Init(), before + after))
  {
    RunMans(Init(), before);
    after := Drains(Run(Init(), before));
    RunConcat(Init(), before, after);
    if Run(Init(), before).closers != [] {
      assert Run(Init(), before + after).closers[0] == Returned;
      CloseReturnsQuiet(before + after, []);
      assert before + after + [] == before + after;
    }
  }

  // ---- registration goes through while the listener is open ----

  function AcceptRound(): seq<Step> { [Accepts(AcceptLock), Accepts(AcceptCheck), Accepts(AcceptAdd)] }

  function PressRound(): seq<Step> { [Presses(PressLock), Presses(PressCheck), Presses(PressAdd)] }

  /** With acceptMu free, a connection is counted if and only if the listener is open; on
      a closed one the attempt leaves no trace. */
  lemma CountedExactlyWhileOpen(before: seq<Step>)
    requires Run(Init(), before).mu == Free
    ensures var s := Run(Init(), before);
            Run(Init(), before + AcceptRound()) ==
              if s.closed then s else s.(wg := s.wg + 1, handlers := s.handlers + [NewHandler()])
  {
    var s := Run(Init(), before);
    RunKeeps(Init(), before);
    RunConcat(Init(), before, AcceptRound());
    RunThree(s, Accepts(AcceptLock), Accepts(AcceptCheck), Accepts(AcceptAdd));
    assert s.accept == Idle;
  }

  /** The pressure loop starts, once, under the same condition. */
  lemma PressureStartsWhileOpen(before: seq<Step>)
    requires Run(Init(), before).mu == Free
    ensures var s := Run(Init(), before);
            Run(Init(), before + PressRound()) ==
              if s.closed || s.ticking then s else s.(wg := s.wg + 1, ticking := true)
  {
    var s := Run(Init(), before);
    RunKeeps(Init(), before);
    RunConcat(Init(), before, PressRound());
    RunThree(s, Presses(PressLock), Presses(PressCheck), Presses(PressAdd));
    assert s.pressure == Idle;
  }

  // ---- a connection that is turned away ----

  lemma RunFour(s: State, a: Step, b: Step, c: Step, d: Step)
    ensures Run(s, [a, b, c, d]) == Next(Next(Next(Next(s, a), b), c), d)
  {
    RunOne(s, a, [b, c, d]);
    RunThree(Next(s, a), b, c, d);
    assert [a, b, c, d] == [a] + [b, c, d];
  }

  /** The verdict that turns it away, and whether a ticket had been taken for it. */
  predicate TurnsAway(act: Act, ticket: bool) { (act == Refuse && !ticket) || act == Fault(ticket) }

  function With(s: State, i: nat, h: Handler): State
    requires i < |s.handlers|
  {
    s.(handlers := s.handlers[i := h])
  }

  /** The connection once all of it has been given back. */
  function Away(h: Handler, ticket: bool): Handler {
    h.(stage := Gone, ticket := false, open := false, releases := if ticket then 1 else 0, dones := 1)
  }

  lemma FirstTwo(s: State, i: nat, act: Act, ticket: bool)
    requires i < |s.handlers| && HandlerOk(s.handlers[i]) && s.handlers[i].stage == Arriving && TurnsAway(act, ticket)
    ensures var h := s.handlers[i].(stage := Dropping, ticket := false, releases := if ticket then 1 else 0);
            Next(Next(s, Serve(i, act)), Serve(i, Leave)) == With(s, i, h)
  {
    var h := HandlerAfter(s.handlers[i], act);
    assert h == s.handlers[i].(stage := Refused, ticket := ticket);
    var s1 := Next(s, Serve(i, act));
    assert s1 == (if ticket then TakeTicket(s) else s).(handlers := s.handlers[i := h]);
    assert s1.handlers[i] == h && s1.handlers[i := LeaveStep(h)] == s.handlers[i := LeaveStep(h)];
  }

  lemma LastTwo(s: State, i: nat, h: Handler)
    requires i < |s.handlers| && h.stage == Dropping && h.dones == 0
    ensures Next(Next(With(s, i, h), Serve(i, Leave)), Serve(i, Leave)) ==
              With(s, i, h.(stage := Gone, open := false, dones := 1)).(wg := s.wg - 1)
  {
    var g := h.(stage := Finishing, open := false);
    assert Next(With(s, i, h), Serve(i, Leave)) == With(s, i, g);
    assert s.handlers[i := g][i := g.(stage := Gone, dones := 1)] == s.handlers[i := g.(stage := Gone, dones := 1)];
  }

  /** A connection that is turned away leaves nothing behind: its ticket, if one was taken,
      is given back once, its socket closed and its registration ended. */
  lemma TurnedAwayExactly(s: State, i: nat, act: Act, ticket: bool)
    requires Ok(s) && i < |s.handlers| && s.handlers[i].stage == Arriving && TurnsAway(act, ticket)
    ensures Run(s, [Serve(i, act), Serve(i, Leave), Serve(i, Leave), Serve(i, Leave)]) ==
              With(s, i, Away(s.handlers[i], ticket)).(wg := s.wg - 1)
    ensures Settled(Away(s.handlers[i], ticket))
  {
    var h := s.handlers[i];
    assert HandlerOk(h);
    RunFour(s, Serve(i, act), Serve(i, Leave), Serve(i, Leave), Serve(i, Leave));
    FirstTwo(s, i, act, ticket);
    LastTwo(s, i, h.(stage := Dropping, ticket := false, releases := if ticket then 1 else 0));
  }
}
