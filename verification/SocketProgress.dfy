/** That an Accept on an open socket can always get its connection, and that a Cleanup can
    always finish (app/socket.go:146-247). */
module SocketProgress {
  import opened UnixSocket

  // ---- Accept ----

  predicate CallsOf(a: nat, steps: seq<Step>) { forall i :: 0 <= i < |steps| ==> steps[i].Calls? && steps[i].a == a }

  /** The caller is inside Accept on a listener that is open. */
  predicate OnOpen(s: State, a: nat) { a < |s.callers| && s.callers[a].On? && OpenAt(s, s.callers[a].l) }

  /** A connection is handed over by an open listener, and by no other. */
  lemma DeliversExactly(s: State, a: nat)
    ensures Next(s, Calls(a, Deliver)) != s <==> OnOpen(s, a)
    ensures OnOpen(s, a) ==> Next(s, Calls(a, Deliver)) == s.(callers := s.callers[a := Calling])
  {
  }

  /** The published listener refused the call of its own accord; nobody closed it. */
  predicate TurnedAway(s: State, c: Caller) { c.Errored? || (c.Failed? && !c.byClose && c.l == s.cur) }

  /** A caller is on a listener there is. */
  predicate Known(s: State) { forall a :: 0 <= a < |s.callers| && s.callers[a].On? ==> s.callers[a].l < |s.listeners| }

  lemma CallKnown(s: State, a: nat, step: CallStep)
    requires Ok(s) && Known(s)
    ensures Known(Next(s, Calls(a, step)))
  {
  }

  lemma NextKnown(s: State, step: Step)
    requires Ok(s) && Known(s)
    ensures Known(Next(s, step))
  {
    if step.Calls? {
      CallKnown(s, step.a, step.call);
    } else if step != NewCaller {
      NextListeners(s, step);
      NextFrame(s, step);
      SameCallers(s, Next(s, step));
    }
  }

  lemma SameCallers(s: State, t: State)
    requires Known(s) && t.callers == s.callers && |s.listeners| <= |t.listeners|
    ensures Known(t)
  {
  }

  lemma {:induction false} RunKnown(s: State, steps: seq<Step>)
    requires Ok(s) && Known(s)
    ensures Ok(Run(s, steps)) && Known(Run(s, steps))
    decreases |steps|
  {
    if steps != [] {
      NextKeeps(s, steps[0]);
      NextKnown(s, steps[0]);
      RunKnown(Next(s, steps[0]), steps[1..]);
    }
  }

  /** The caller's own steps to a connection. */
  function WayBack(s: State, a: nat): seq<Step>
    requires a < |s.callers|
  {
    match s.callers[a]
    case Calling => [Calls(a, Enter)]
    case On(l) => if OpenAt(s, l) then [] else [Calls(a, Fail), Calls(a, Look), Calls(a, Enter)]
    case _ => [Calls(a, Look), Calls(a, Enter)]
  }

  lemma TwoMore(s: State, x: Step, y: Step)
    ensures Run(s, [x, y]) == Next(Next(s, x), y)
  {
    RunOne(s, x, [y]);
    RunOne(Next(s, x), y, []);
    assert [x, y] == [x] + [y] && [y] == [y] + [];
  }

  lemma WayBackLeads(s: State, a: nat)
    requires Ok(s) && Known(s) && !s.closed && a < |s.callers| && !TurnedAway(s, s.callers[a])
    ensures OnOpen(Run(s, WayBack(s, a)), a)
  {
    assert CallerOk(s, s.callers[a]);
    match s.callers[a]
    case Calling =>
      RunOne(s, Calls(a, Enter), []);
      assert [Calls(a, Enter)] == [Calls(a, Enter)] + [];
    case On(l) =>
      if !OpenAt(s, l) {
        StaleLeads(s, a);
      }
    case Failed(l, byClose) => TwoMore(s, Calls(a, Look), Calls(a, Enter));
    case Errored(_, _) =>
  }

  lemma StaleLeads(s: State, a: nat)
    requires Ok(s) && !s.closed && a < |s.callers| && s.callers[a].On? && !OpenAt(s, s.callers[a].l)
    requires s.callers[a].l < |s.listeners|
    ensures OnOpen(Run(s, WayBack(s, a)), a)
  {
    var rest := [Calls(a, Look), Calls(a, Enter)];
    RunOne(s, Calls(a, Fail), rest);
    TwoMore(Next(s, Calls(a, Fail)), Calls(a, Look), Calls(a, Enter));
    assert WayBack(s, a) == [Calls(a, Fail)] + rest;
  }

  /** In every run, from every moment at which the socket is open: a caller that has not
      been turned away needs no one else to be on an open listener, where the next
      connection is handed to it. */
  lemma AcceptCanReturn(s: State, steps: seq<Step>, a: nat) returns (own: seq<Step>)
    requires Start(s) && !Run(s, steps).closed && a < |Run(s, steps).callers|
    requires !TurnedAway(Run(s, steps), Run(s, steps).callers[a])
    ensures CallsOf(a, own) && |own| <= 3
    ensures var t := Run(Run(s, steps), own);
            OnOpen(t, a) && Next(t, Calls(a, Deliver)).callers[a] == Calling
  {
    StartOk(s);
    RunKnown(s, steps);
    own := WayBack(Run(s, steps), a);
    WayBackLeads(Run(s, steps), a);
    DeliversExactly(Run(Run(s, steps), own), a);
  }

  /** The caller's own steps out of a socket all of whose listeners are closed. */
  function WayOut(s: State, a: nat): seq<Step>
    requires a < |s.callers|
  {
    match s.callers[a]
    case Calling => [Calls(a, Enter), Calls(a, Fail), Calls(a, Look)]
    case On(l) => [Calls(a, Fail), Calls(a, Look)]
    case Failed(_, _) => [Calls(a, Look)]
    case Errored(_, _) => []
  }

  lemma WayOutLeads(s: State, a: nat)
    requires Ok(s) && Known(s) && s.closed && a < |s.callers| && forall l :: !OpenAt(s, l)
    ensures a < |Run(s, WayOut(s, a)).callers| && Run(s, WayOut(s, a)).callers[a].Errored?
  {
    match s.callers[a]
    case Calling =>
      RunOne(s, Calls(a, Enter), [Calls(a, Fail), Calls(a, Look)]);
      OutFrom(Next(s, Calls(a, Enter)), a);
      assert WayOut(s, a) == [Calls(a, Enter)] + [Calls(a, Fail), Calls(a, Look)];
    case On(l) => OutFrom(s, a);
    case Failed(l, byClose) =>
      RunOne(s, Calls(a, Look), []);
      assert [Calls(a, Look)] == [Calls(a, Look)] + [];
    case Errored(_, _) =>
  }

  lemma OutFrom(s: State, a: nat)
    requires s.closed && a < |s.callers| && s.callers[a].On? && s.callers[a].l < |s.listeners|
    ensures var t := Run(s, [Calls(a, Fail), Calls(a, Look)]); a < |t.callers| && t.callers[a].Errored?
  {
    TwoMore(s, Calls(a, Fail), Calls(a, Look));
  }

  /** In every run, once a closed socket's listeners are closed, every Accept caller needs
      no one else to return its error; it is not sent round again. */
  lemma AcceptEnds(s: State, steps: seq<Step>, a: nat) returns (own: seq<Step>)
    requires Start(s) && Run(s, steps).closed && a < |Run(s, steps).callers|
    requires forall l :: !OpenAt(Run(s, steps), l)
    ensures CallsOf(a, own) && |own| <= 3
    ensures var t := Run(Run(s, steps), own); a < |t.callers| && t.callers[a].Errored?
  {
    StartOk(s);
    RunKnown(s, steps);
    own := WayOut(Run(s, steps), a);
    WayOutLeads(Run(s, steps), a);
  }

  // ---- a socket that is well ----

  /** While the path leads to the daemon its watcher leaves everything alone, however often
      it looks. */
  lemma {:induction false} HealthyIsLeftAlone(s: State, own: seq<Step>)
    requires Healthy(s) && Watching(s) && WatchersOwn(own)
    ensures Run(s, own) == s
    decreases |own|
  {
    if own != [] {
      assert Next(s, own[0]) == s;
      HealthyIsLeftAlone(s, own[1..]);
    }
  }

  // ---- Cleanup ----

  /** The watcher is told to stop before it is waited for. */
  predicate StopFirst(s: State) { s.cleaner == NotStarted || s.cleaner == Closing || s.stopped }

  lemma NextStops(s: State, step: Step)
    requires StopFirst(s)
    ensures StopFirst(Next(s, step))
  {
    match step
    case Binds(b) => BindFrame(s, b);
    case Swaps(w) => SwapFrame(s, w);
    case _ =>
  }

  lemma {:induction false} RunStops(s: State, steps: seq<Step>)
    requires Ok(s) && StopFirst(s)
    ensures Ok(Run(s, steps)) && StopFirst(Run(s, steps))
    decreases |steps|
  {
    if steps != [] {
      NextKeeps(s, steps[0]);
      NextStops(s, steps[0]);
      RunStops(Next(s, steps[0]), steps[1..]);
    }
  }

  function WatcherLeft(w: Watcher): nat {
    match w
    case Exited => 0
    case Ticking => 1
    case SawGone => 2
    case Withdrawing(_) => 1
    case Retreating(_, _) => 2
    case OldClosed(_) => 2
    case Abandoned(_) => 2
    case Unpinned(_) => 2
    case Swapped(_, _) => 3
    case Owned(_, _) => 4
    case Statted(_, _) => 5
    case Chmodded(_) => 6
    case Bound(_) => 7
  }

  function CleanerLeft(c: Cleaner): nat {
    match c
    case NotStarted => 4
    case Closing => 3
    case Joining => 2
    case Removing(_) => 1
    case Finished => 0
  }

  function Left(s: State): nat {
    WatcherLeft(s.watcher) + CleanerLeft(s.cleaner) + (if s.duty == Callers || s.duty == Cleanups then 1 else 0)
  }

  /** A move of the watcher's, of Cleanup's, or of a Close that is under way. */
  predicate Own(step: Step) {
    step.Binds? || step.Swaps? || step.Retreats? || (step.Closes? && step.close != Close && step.close != StartCleanup)
  }

  /** The watcher's next move once it is to stop. */
  function Winding(w: Watcher): Step {
    match w
    case Ticking => Swaps(Exit)
    case SawGone => Binds(BindFails)
    case Bound(_) => Binds(Chmod(true))
    case Chmodded(_) => Binds(Stat)
    case Statted(_, _) => Binds(Pin(true))
    case Owned(_, _) => Swaps(Publish)
    case Swapped(_, _) => Swaps(CloseOld)
    case OldClosed(_) => Swaps(ReleaseOld)
    case Withdrawing(_) => Retreats(Withdraw)
    case _ => Retreats(CloseCandidate)
  }

  lemma BindWinds(s: State)
    requires Winding(s.watcher).Binds?
    ensures var t := BindNext(s, Winding(s.watcher).bind);
            WatcherLeft(t.watcher) < WatcherLeft(s.watcher) && t.cleaner == s.cleaner && t.duty == s.duty
  {
  }

  lemma SwapWinds(s: State)
    requires Winding(s.watcher).Swaps? && s.stopped
    ensures var t := SwapNext(s, Winding(s.watcher).swap);
            WatcherLeft(t.watcher) < WatcherLeft(s.watcher) && t.cleaner == s.cleaner && t.duty == s.duty
  {
  }

  lemma WatcherWinds(s: State)
    requires s.stopped && s.watcher != Exited
    ensures var t := Next(s, Winding(s.watcher));
            Left(t) < Left(s) && t.cleaner == s.cleaner
  {
    match Winding(s.watcher)
    case Binds(_) => BindWinds(s);
    case Swaps(_) => SwapWinds(s);
    case Retreats(w) => assert Next(s, Retreats(w)) == RetreatNext(s, w);
  }

  /** While a Cleanup is under way some move brings its end nearer. */
  lemma CleanupMoves(s: State) returns (step: Step)
    requires Ok(s) && StopFirst(s) && s.cleaner != NotStarted && s.cleaner != Finished
    ensures Own(step) && Left(Next(s, step)) < Left(s) && Next(s, step).cleaner != NotStarted
  {
    match s.cleaner
    case Closing => step := Closes(if s.duty == Cleanups then CloseCurrent else StopWatcher);
    case Joining =>
      if s.watcher == Exited {
        step := Closes(JoinWatcher);
      } else {
        step := Winding(s.watcher);
        WatcherWinds(s);
      }
    case Removing(_) => step := Closes(RemoveOwn);
  }

  lemma {:induction false} Finishes(s: State) returns (steps: seq<Step>)
    requires Ok(s) && StopFirst(s) && s.cleaner != NotStarted
    ensures (forall i :: 0 <= i < |steps| ==> Own(steps[i])) && Run(s, steps).cleaner == Finished
    decreases Left(s)
  {
    steps := [];
    if s.cleaner != Finished {
      var step := CleanupMoves(s);
      NextKeeps(s, step);
      NextStops(s, step);
      var rest := Finishes(Next(s, step));
      steps := [step] + rest;
      RunOne(s, step, rest);
    }
  }

  /** No Cleanup is ever stuck: in every run, whatever the watcher and other Close callers
      are in the middle of, the moves under way can bring it to its end. */
  lemma CleanupCanFinish(s: State, steps: seq<Step>) returns (own: seq<Step>)
    requires Start(s) && Run(s, steps).cleaner != NotStarted
    ensures (forall i :: 0 <= i < |own| ==> Own(own[i])) && Run(Run(s, steps), own).cleaner == Finished
  {
    StartOk(s);
    RunStops(s, steps);
    own := Finishes(Run(s, steps));
  }
}
