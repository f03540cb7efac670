/** The daemon's self-healing unix socket: its watcher, Accept callers, Close and
    Cleanup, against a file sweeper and other daemons binding the same path
    (app/socket.go:59-247, app/main.go:1691-1775).

    Every effect on the path, on a listener or on an inode hold is a step of its
    own; a step that is not enabled leaves the state alone, so a run is any
    sequence of steps. removeIfStillOurs is one step: its stat, its comparison
    and its unlink are taken as atomic. */
module UnixSocket {
  import opened Optional

  /** A socket file. `id` tells files apart; the file system compares `ino` alone. */
  datatype File = File(id: nat, ino: nat, ours: bool)

  /** An open reference that keeps a file's inode number from being reused. */
  datatype Hold = Hold(file: File, live: bool, releases: nat)

  /** What a removal compares against, and the hold taken with it if there is one. */
  datatype Identity = Identity(hold: Option<nat>, stat: File)

  datatype Listener = Listener(file: File, open: bool)

  datatype Watcher =
    | Ticking
    | SawGone
    | Bound(l: nat)                      // chmod next
    | Chmodded(l: nat)                   // stat next
    | Statted(l: nat, st: File)          // hold next
    | Owned(l: nat, wid: Identity)       // publish next
    | Swapped(prev: nat, wid: Identity)  // close the old listener next
    | OldClosed(wid: Identity)           // release the old hold next
    | Abandoned(l: nat)                  // chmod failed: closing still unlinks by name
    | Unpinned(l: nat)                   // stat failed: close only
    | Retreating(l: nat, wid: Identity)  // Close came first: close the candidate
    | Withdrawing(wid: Identity)         // and remove its file
    | Exited

  datatype Cleaner = NotStarted | Closing | Joining | Removing(cid: Identity) | Finished

  /** Who is to close the published listener: whoever found the socket not yet closed,
      a Close caller or Cleanup. A second Close returns at once. */
  datatype Duty = Nobodys | Callers | Cleanups | Done

  /** One Accept caller. `byClose` is true of an error raised by a closed listener. */
  datatype Caller = Calling | On(l: nat) | Failed(l: nat, byClose: bool) | Errored(l: nat, byClose: bool)

  datatype State = State(
    path: Option<File>,
    files: nat,                 // files made so far
    holds: seq<Hold>,
    listeners: seq<Listener>,
    cur: nat,
    id: Identity,               // of cur
    closed: bool,
    duty: Duty,
    stopped: bool,
    watcher: Watcher,
    cleaner: Cleaner,
    callers: seq<Caller>,
    disturbed: bool,            // a pin did not see our own file twice, or a chmod failed
    foreign: nat)               // sockets of other daemons unlinked so far

  datatype WorldStep = SweepPath | NewcomerBinds(ino: nat)

  datatype BindStep = Bind(ino: nat) | BindFails | Chmod(ok: bool) | Stat | Pin(ok: bool)

  datatype SwapStep = Tick | Exit | Publish | CloseOld | ReleaseOld

  datatype RetreatStep = CloseCandidate | Withdraw

  datatype CloseStep = Close | CloseCurrent | StartCleanup | StopWatcher | JoinWatcher | RemoveOwn

  datatype CallStep = Enter | Deliver | Fail | Look

  datatype Step =
    | World(world: WorldStep) | Binds(bind: BindStep) | Swaps(swap: SwapStep) | Retreats(retreat: RetreatStep)
    | Closes(close: CloseStep) | NewCaller | Calls(a: nat, call: CallStep)

  // ---- the file system ----

  predicate HeldIno(holds: seq<Hold>, ino: nat) {
    exists h :: 0 <= h < |holds| && holds[h].live && holds[h].file.ino == ino
  }

  /** A file is made only where there is none, and never with a held inode number. */
  predicate CanBind(s: State, ino: nat) { s.path == None && !HeldIno(s.holds, ino) }

  function Made(s: State, ino: nat, ours: bool): State {
    s.(path := Some(File(s.files, ino, ours)), files := s.files + 1)
  }

  function Unlinked(s: State): State {
    s.(path := None, foreign := s.foreign + if s.path.Some? && !s.path.value.ours then 1 else 0)
  }

  predicate Matches(s: State, id: Identity) { s.path.Some? && s.path.value.ino == id.stat.ino }

  function Released(holds: seq<Hold>, h: Option<nat>): seq<Hold> {
    if h.Some? && h.value < |holds|
    then holds[h.value := holds[h.value].(live := false, releases := holds[h.value].releases + 1)] else holds
  }

  /** removeIfStillOurs: unlink while the path still carries our inode number, and
      only then let the hold go. */
  function Removed(s: State, id: Identity): State {
    var t := if Matches(s, id) then Unlinked(s) else s;
    t.(holds := Released(s.holds, id.hold))
  }

  function WorldNext(s: State, step: WorldStep): State {
    match step
    case SweepPath => s.(path := None)
    case NewcomerBinds(ino) => if CanBind(s, ino) then Made(s, ino, false) else s
  }

  // ---- the watcher ----

  function SetOpen(ls: seq<Listener>, l: nat, open: bool): seq<Listener> {
    if l < |ls| then ls[l := ls[l].(open := open)] else ls
  }

  /** The identity was taken from our own file, and the hold is on that same file. */
  predicate Faithful(holds: seq<Hold>, id: Identity) {
    && id.stat.ours && id.hold.Some? && id.hold.value < |holds|
    && holds[id.hold.value].file == id.stat
  }

  function BindNext(s: State, step: BindStep): State {
    match step
    case Bind(ino) =>
      if s.watcher != SawGone then s
      else if CanBind(s, ino)
      then Made(s, ino, true).(listeners := s.listeners + [Listener(File(s.files, ino, true), true)],
                               watcher := Bound(|s.listeners|))
      else s.(watcher := Ticking)
    case BindFails => if s.watcher == SawGone then s.(watcher := Ticking) else s
    case Chmod(ok) =>
      if !s.watcher.Bound? then s
      else if ok && s.path.Some? then s.(watcher := Chmodded(s.watcher.l))
      else s.(watcher := Abandoned(s.watcher.l), disturbed := true)
    case Stat =>
      if !s.watcher.Chmodded? then s
      else if s.path.Some? then s.(watcher := Statted(s.watcher.l, s.path.value))
      else s.(watcher := Unpinned(s.watcher.l))
    case Pin(ok) =>
      if !s.watcher.Statted? then s
      else if ok && s.path.Some? then
        var holds := s.holds + [Hold(s.path.value, true, 0)];
        var id := Identity(Some(|s.holds|), s.watcher.st);
        s.(holds := holds, watcher := Owned(s.watcher.l, id), disturbed := s.disturbed || !Faithful(holds, id))
      else s.(watcher := Owned(s.watcher.l, Identity(None, s.watcher.st)), disturbed := true)
  }

  function SwapNext(s: State, step: SwapStep): State {
    match step
    case Tick => if s.watcher == Ticking && s.path == None then s.(watcher := SawGone) else s
    case Exit => if s.watcher == Ticking && s.stopped then s.(watcher := Exited) else s
    case Publish =>
      if !s.watcher.Owned? then s
      else if s.closed then s.(watcher := Retreating(s.watcher.l, s.watcher.wid))
      else s.(cur := s.watcher.l, id := s.watcher.wid, watcher := Swapped(s.cur, s.id))
    case CloseOld =>
      if s.watcher.Swapped?
      then s.(listeners := SetOpen(s.listeners, s.watcher.prev, false), watcher := OldClosed(s.watcher.wid)) else s
    case ReleaseOld =>
      if s.watcher.OldClosed? then s.(holds := Released(s.holds, s.watcher.wid.hold), watcher := Ticking) else s
  }

  /** A candidate that is not published is closed; by name, when its chmod failed. */
  function RetreatNext(s: State, step: RetreatStep): State {
    match step
    case CloseCandidate =>
      if s.watcher.Abandoned?
      then Unlinked(s).(listeners := SetOpen(s.listeners, s.watcher.l, false), watcher := Ticking)
      else if s.watcher.Unpinned? then s.(listeners := SetOpen(s.listeners, s.watcher.l, false), watcher := Ticking)
      else if s.watcher.Retreating?
      then s.(listeners := SetOpen(s.listeners, s.watcher.l, false), watcher := Withdrawing(s.watcher.wid))
      else s
    case Withdraw => if s.watcher.Withdrawing? then Removed(s, s.watcher.wid).(watcher := Exited) else s
  }

  // ---- Close, Cleanup and Accept ----

  function CloseNext(s: State, step: CloseStep): State {
    match step
    case Close => if s.closed then s else s.(closed := true, duty := Callers)
    case CloseCurrent =>
      if s.duty == Callers || s.duty == Cleanups
      then s.(listeners := SetOpen(s.listeners, s.cur, false), duty := Done) else s
    case StartCleanup =>
      if s.cleaner != NotStarted then s
      else if s.closed then s.(cleaner := Closing)
      else s.(closed := true, duty := Cleanups, cleaner := Closing)
    case StopWatcher =>
      if s.cleaner == Closing && s.duty != Cleanups then s.(stopped := true, cleaner := Joining) else s
    case JoinWatcher => if s.cleaner == Joining && s.watcher == Exited then s.(cleaner := Removing(s.id)) else s
    case RemoveOwn => if s.cleaner.Removing? then Removed(s, s.cleaner.cid).(cleaner := Finished) else s
  }

  function CallerAfter(s: State, c: Caller, step: CallStep): Caller {
    match step
    case Enter => if c == Calling then On(s.cur) else c
    case Deliver => if c.On? && c.l < |s.listeners| && s.listeners[c.l].open then Calling else c
    case Fail => if c.On? && c.l < |s.listeners| then Failed(c.l, !s.listeners[c.l].open) else c
    case Look =>
      if !c.Failed? then c
      else if s.cur != c.l && !s.closed then Calling
      else Errored(c.l, c.byClose)
  }

  function Next(s: State, step: Step): State {
    match step
    case World(w) => WorldNext(s, w)
    case Binds(b) => BindNext(s, b)
    case Swaps(w) => SwapNext(s, w)
    case Retreats(w) => RetreatNext(s, w)
    case Closes(c) => CloseNext(s, c)
    case NewCaller => s.(callers := s.callers + [Calling])
    case Calls(a, c) => if a < |s.callers| then s.(callers := s.callers[a := CallerAfter(s, s.callers[a], c)]) else s
  }

  function Run(s: State, steps: seq<Step>): State
    decreases |steps|
  {
    if steps == [] then s else Run(Next(s, steps[0]), steps[1..])
  }

  /** A daemon that has just bound its socket, however its pin turned out. */
  predicate Start(s: State) {
    && |s.listeners| == 1 && s.listeners[0].open && s.cur == 0
    && !s.closed && s.duty == Nobodys && !s.stopped && s.watcher == Ticking && s.cleaner == NotStarted
    && s.callers == [] && s.foreign == 0
    && |s.holds| <= 1 && s.id.hold == (if s.holds == [] then None else Some(0))
    && (s.holds != [] ==> s.holds[0].live && s.holds[0].releases == 0)
    && (s.disturbed <==> !Faithful(s.holds, s.id))
    && Unique(s.path, s.holds)
    && (s.path.Some? && s.path.value.ours && !s.disturbed ==> s.path.value == s.id.stat)
  }

  // ---- what every run keeps ----

  /** A file at the path with a held inode number is the held file itself. */
  predicate Unique(path: Option<File>, holds: seq<Hold>) {
    path.Some? ==>
      forall h :: 0 <= h < |holds| && holds[h].live && holds[h].file.ino == path.value.ino ==>
        holds[h].file == path.value
  }

  /** The hold behind the published identity, until Cleanup has let it go. */
  function CurHold(s: State): Option<nat> {
    if s.cleaner == Finished then None else s.id.hold
  }

  /** The hold the watcher is answerable for. */
  function WatchHold(w: Watcher): Option<nat> {
    match w
    case Owned(_, id) => id.hold
    case Swapped(_, id) => id.hold
    case OldClosed(id) => id.hold
    case Retreating(_, id) => id.hold
    case Withdrawing(id) => id.hold
    case _ => None
  }

  predicate HoldOk(s: State, h: nat)
    requires h < |s.holds|
  {
    && s.holds[h].releases == (if s.holds[h].live then 0 else 1)
    && (s.holds[h].live <==> CurHold(s) == Some(h) || WatchHold(s.watcher) == Some(h))
    && !(CurHold(s) == Some(h) && WatchHold(s.watcher) == Some(h))
  }

  predicate InRange(o: Option<nat>, n: nat) { o.Some? ==> o.value < n }

  /** Every live hold has exactly one party that will release it. */
  predicate HoldsOk(s: State) {
    && InRange(CurHold(s), |s.holds|) && InRange(WatchHold(s.watcher), |s.holds|)
    && forall h :: 0 <= h < |s.holds| ==> HoldOk(s, h)
  }

  /** The listener the watcher is working on, other than the published one. */
  function WatchListener(w: Watcher): Option<nat> {
    match w
    case Bound(l) => Some(l)
    case Chmodded(l) => Some(l)
    case Statted(l, _) => Some(l)
    case Owned(l, _) => Some(l)
    case Swapped(prev, _) => Some(prev)
    case Abandoned(l) => Some(l)
    case Unpinned(l) => Some(l)
    case Retreating(l, _) => Some(l)
    case _ => None
  }

  predicate ListenersOk(s: State) {
    && s.cur < |s.listeners|
    && InRange(WatchListener(s.watcher), |s.listeners|) && WatchListener(s.watcher) != Some(s.cur)
    && (s.watcher.Bound? || s.watcher.Chmodded? || s.watcher.Statted? || s.watcher.Owned? ==>
          s.listeners[s.watcher.l].open)
  }

  /** Every open listener is the published one or the watcher's. */
  predicate NoStray(ls: seq<Listener>, cur: nat, watched: Option<nat>) {
    forall l :: 0 <= l < |ls| && ls[l].open ==> l == cur || watched == Some(l)
  }

  predicate Tracked(s: State) { NoStray(s.listeners, s.cur, WatchListener(s.watcher)) }

  predicate CleanerOk(s: State) {
    && (s.cleaner != NotStarted ==> s.closed)
    && (s.cleaner.Removing? ==> s.watcher == Exited && s.cleaner.cid == s.id)
    && (s.cleaner == Finished ==> s.watcher == Exited)
  }

  /** The published listener is open until whoever owes its closing has closed it, and
      Cleanup does not go on while that is Cleanup. */
  predicate DutyOk(s: State) {
    && (s.closed <==> s.duty != Nobodys)
    && (s.cur < |s.listeners| ==> (s.listeners[s.cur].open <==> s.duty != Done))
    && (s.duty == Cleanups ==> s.cleaner == Closing)
  }

  predicate CallerOk(s: State, c: Caller) {
    match c
    case Failed(l, byClose) => byClose ==> l < |s.listeners| && !s.listeners[l].open
    case Errored(_, byClose) => byClose ==> s.closed
    case _ => true
  }

  predicate CallersOk(s: State) {
    forall a :: 0 <= a < |s.callers| ==> CallerOk(s, s.callers[a])
  }

  predicate Ok(s: State) {
    && HoldsOk(s) && ListenersOk(s) && Tracked(s) && CleanerOk(s) && DutyOk(s) && CallersOk(s)
    && Unique(s.path, s.holds)
  }

  // ---- holds are released once ----

  lemma ReleasedHold(s: State, h: Option<nat>, t: State)
    requires HoldsOk(s) && h == CurHold(s) && t.holds == Released(s.holds, h)
    requires CurHold(t) == None && WatchHold(t.watcher) == WatchHold(s.watcher)
    ensures HoldsOk(t)
  {
    forall k | 0 <= k < |t.holds| ensures HoldOk(t, k) {
      assert HoldOk(s, k);
    }
  }

  lemma ReleasedWatchHold(s: State, h: Option<nat>, t: State)
    requires HoldsOk(s) && h == WatchHold(s.watcher) && t.holds == Released(s.holds, h)
    requires CurHold(t) == CurHold(s) && WatchHold(t.watcher) == None
    ensures HoldsOk(t)
  {
    forall k | 0 <= k < |t.holds| ensures HoldOk(t, k) {
      assert HoldOk(s, k);
    }
  }

  /** Same holds, same parties answerable for them, possibly exchanged. */
  lemma SameHolds(s: State, t: State)
    requires HoldsOk(s) && t.holds == s.holds
    requires
      || (CurHold(t) == CurHold(s) && WatchHold(t.watcher) == WatchHold(s.watcher))
      || (CurHold(t) == WatchHold(s.watcher) && WatchHold(t.watcher) == CurHold(s))
    ensures HoldsOk(t)
  {
    forall k | 0 <= k < |t.holds| ensures HoldOk(t, k) {
      assert HoldOk(s, k);
    }
  }

  lemma PinnedHold(s: State, f: File, t: State)
    requires HoldsOk(s) && WatchHold(s.watcher) == None && t.holds == s.holds + [Hold(f, true, 0)]
    requires CurHold(t) == CurHold(s) && WatchHold(t.watcher) == Some(|s.holds|)
    ensures HoldsOk(t)
  {
    forall k | 0 <= k < |t.holds| ensures HoldOk(t, k) {
      assert k < |s.holds| ==> HoldOk(s, k);
    }
  }

  lemma BindHolds(s: State, step: BindStep)
    requires HoldsOk(s) && CleanerOk(s)
    ensures HoldsOk(BindNext(s, step))
  {
    var t := BindNext(s, step);
    if step.Pin? && t.holds != s.holds {
      PinnedHold(s, s.path.value, t);
    } else {
      BindHolders(s, step);
      SameHolds(s, t);
    }
  }

  lemma BindHolders(s: State, step: BindStep)
    ensures var t := BindNext(s, step);
            && CurHold(t) == CurHold(s)
            && (t.holds == s.holds ==> WatchHold(t.watcher) == WatchHold(s.watcher))
            && (!step.Pin? ==> t.holds == s.holds)
  {
    if step.Pin? && s.watcher.Statted? && step.ok && s.path.Some? {
      assert |BindNext(s, step).holds| == |s.holds| + 1;
    }
  }

  lemma SwapHolders(s: State, step: SwapStep)
    requires CleanerOk(s) && step != ReleaseOld
    ensures var t := SwapNext(s, step);
            && t.holds == s.holds
            && ((CurHold(t) == CurHold(s) && WatchHold(t.watcher) == WatchHold(s.watcher))
                || (CurHold(t) == WatchHold(s.watcher) && WatchHold(t.watcher) == CurHold(s)))
  {
  }

  lemma SwapHolds(s: State, step: SwapStep)
    requires HoldsOk(s) && CleanerOk(s)
    ensures HoldsOk(SwapNext(s, step))
  {
    var t := SwapNext(s, step);
    if step != ReleaseOld {
      SwapHolders(s, step);
      SameHolds(s, t);
    } else if s.watcher.OldClosed? {
      ReleasedWatchHold(s, s.watcher.wid.hold, t);
    }
  }

  lemma RetreatHolds(s: State, step: RetreatStep)
    requires HoldsOk(s)
    ensures HoldsOk(RetreatNext(s, step))
  {
    var t := RetreatNext(s, step);
    if step == Withdraw && s.watcher.Withdrawing? {
      ReleasedWatchHold(s, s.watcher.wid.hold, t);
    } else {
      RetreatHolders(s, step);
      SameHolds(s, t);
    }
  }

  lemma RetreatHolders(s: State, step: RetreatStep)
    requires step == CloseCandidate || !s.watcher.Withdrawing?
    ensures var t := RetreatNext(s, step);
            t.holds == s.holds && CurHold(t) == CurHold(s) && WatchHold(t.watcher) == WatchHold(s.watcher)
  {
  }

  lemma CloseHolds(s: State, step: CloseStep)
    requires Ok(s)
    ensures HoldsOk(CloseNext(s, step))
  {
    var t := CloseNext(s, step);
    if step == RemoveOwn && s.cleaner.Removing? {
      ReleasedHold(s, s.id.hold, t);
    } else {
      SameHolds(s, t);
    }
  }

  // ---- a file with a held number is the held file ----

  lemma UniqueReleased(path: Option<File>, holds: seq<Hold>, h: Option<nat>)
    requires Unique(path, holds)
    ensures Unique(path, Released(holds, h)) && Unique(None, Released(holds, h))
  {
  }

  lemma MadeUnique(s: State, ino: nat, ours: bool)
    requires CanBind(s, ino)
    ensures Unique(Made(s, ino, ours).path, s.holds)
  {
  }

  lemma BindUnique(s: State, step: BindStep)
    requires Unique(s.path, s.holds)
    ensures Unique(BindNext(s, step).path, BindNext(s, step).holds)
  {
    if step.Bind? && CanBind(s, step.ino) {
      MadeUnique(s, step.ino, true);
    }
  }

  lemma SwapUnique(s: State, step: SwapStep)
    requires Unique(s.path, s.holds)
    ensures Unique(SwapNext(s, step).path, SwapNext(s, step).holds)
  {
    if s.watcher.OldClosed? {
      UniqueReleased(s.path, s.holds, s.watcher.wid.hold);
    }
  }

  lemma RetreatUnique(s: State, step: RetreatStep)
    requires Unique(s.path, s.holds)
    ensures Unique(RetreatNext(s, step).path, RetreatNext(s, step).holds)
  {
    if s.watcher.Withdrawing? {
      UniqueReleased(s.path, s.holds, s.watcher.wid.hold);
    }
  }

  lemma NextUnique(s: State, step: Step)
    requires Unique(s.path, s.holds)
    ensures Unique(Next(s, step).path, Next(s, step).holds)
  {
    match step
    case World(NewcomerBinds(ino)) => if CanBind(s, ino) { MadeUnique(s, ino, false); }
    case Binds(b) => BindUnique(s, b);
    case Swaps(w) => SwapUnique(s, w);
    case Retreats(w) => RetreatUnique(s, w);
    case Closes(RemoveOwn) => if s.cleaner.Removing? { UniqueReleased(s.path, s.holds, s.cleaner.cid.hold); }
    case _ =>
  }

  // ---- the rest of the invariant ----

  /** No listener is reopened. */
  predicate Later(before: seq<Listener>, after: seq<Listener>) {
    |before| <= |after| && forall l :: 0 <= l < |before| && !before[l].open ==> !after[l].open
  }

  lemma BindListeners(s: State, step: BindStep)
    requires ListenersOk(s)
    ensures ListenersOk(BindNext(s, step)) && Later(s.listeners, BindNext(s, step).listeners)
  {
  }

  lemma SwapListeners(s: State, step: SwapStep)
    requires ListenersOk(s)
    ensures ListenersOk(SwapNext(s, step))
  {
  }

  lemma RetreatListeners(s: State, step: RetreatStep)
    requires ListenersOk(s)
    ensures ListenersOk(RetreatNext(s, step))
  {
  }

  lemma ShutLater(ls: seq<Listener>, l: nat)
    ensures Later(ls, SetOpen(ls, l, false)) && Later(ls, ls)
  {
  }

  lemma WatchLater(s: State, swap: SwapStep, retreat: RetreatStep)
    ensures Later(s.listeners, SwapNext(s, swap).listeners) && Later(s.listeners, RetreatNext(s, retreat).listeners)
  {
    var w := WatchListener(s.watcher);
    ShutLater(s.listeners, if w.Some? then w.value else 0);
  }

  lemma CloseListeners(s: State, step: CloseStep)
    requires ListenersOk(s)
    ensures ListenersOk(CloseNext(s, step)) && Later(s.listeners, CloseNext(s, step).listeners)
  {
  }

  /** What a step may do to the listeners: nothing, open a candidate for the
      watcher, close the one it works on, exchange it with the published one, or
      close the published one. */
  predicate Moved(s: State, t: State) {
    var w, v := WatchListener(s.watcher), WatchListener(t.watcher);
    || (t.listeners == s.listeners && t.cur == s.cur && v == w)
    || (w == None && v == Some(|s.listeners|) && t.cur == s.cur && |t.listeners| == |s.listeners| + 1
        && s.listeners == t.listeners[..|s.listeners|])
    || (w.Some? && v == None && t.cur == s.cur && t.listeners == SetOpen(s.listeners, w.value, false))
    || (t.listeners == s.listeners && w == Some(t.cur) && v == Some(s.cur))
    || (v == w && t.cur == s.cur && t.listeners == SetOpen(s.listeners, s.cur, false))
  }

  lemma SwapMoves(s: State, step: SwapStep)
    requires ListenersOk(s)
    ensures Moved(s, SwapNext(s, step))
  {
  }

  lemma RetreatMoves(s: State, step: RetreatStep)
    requires ListenersOk(s)
    ensures Moved(s, RetreatNext(s, step))
  {
  }

  lemma BindMoves(s: State, step: BindStep)
    requires ListenersOk(s)
    ensures Moved(s, BindNext(s, step))
  {
  }

  lemma CloseMoves(s: State, step: CloseStep)
    ensures Moved(s, CloseNext(s, step))
  {
  }

  lemma NextMoves(s: State, step: Step)
    requires ListenersOk(s)
    ensures Moved(s, Next(s, step))
  {
    match step
    case Binds(b) => BindMoves(s, b);
    case Swaps(w) => SwapMoves(s, w);
    case Retreats(w) => RetreatMoves(s, w);
    case Closes(c) => CloseMoves(s, c);
    case _ =>
  }

  lemma MovedTracked(s: State, t: State)
    requires ListenersOk(s) && Tracked(s) && Moved(s, t)
    ensures Tracked(t)
  {
    assert forall l :: 0 <= l < |s.listeners| && |s.listeners| < |t.listeners| ==>
             t.listeners[l] == t.listeners[..|s.listeners|][l];
  }

  lemma NextTracked(s: State, step: Step)
    requires ListenersOk(s) && Tracked(s)
    ensures Tracked(Next(s, step))
  {
    NextMoves(s, step);
    MovedTracked(s, Next(s, step));
  }

  lemma NextListeners(s: State, step: Step)
    requires ListenersOk(s)
    ensures ListenersOk(Next(s, step)) && Later(s.listeners, Next(s, step).listeners)
  {
    match step
    case Binds(b) => BindListeners(s, b);
    case Swaps(w) =>
      SwapListeners(s, w);
      WatchLater(s, w, Withdraw);
    case Retreats(w) =>
      RetreatListeners(s, w);
      WatchLater(s, Tick, w);
    case Closes(c) => CloseListeners(s, c);
    case _ =>
  }

  lemma BindFrame(s: State, step: BindStep)
    ensures var t := BindNext(s, step);
            && t.callers == s.callers && t.closed == s.closed && t.cleaner == s.cleaner
            && t.cur == s.cur && t.id == s.id && (s.watcher == Exited ==> t.watcher == Exited)
  {
  }

  lemma SwapFrame(s: State, step: SwapStep)
    ensures var t := SwapNext(s, step);
            && t.callers == s.callers && t.closed == s.closed && t.cleaner == s.cleaner
            && (s.watcher == Exited ==> t.watcher == Exited)
            && (s.closed || s.watcher == Exited ==> t.cur == s.cur && t.id == s.id)
  {
  }

  lemma RetreatFrame(s: State, step: RetreatStep)
    ensures var t := RetreatNext(s, step);
            && t.callers == s.callers && t.closed == s.closed && t.cleaner == s.cleaner
            && t.cur == s.cur && t.id == s.id && (s.watcher == Exited ==> t.watcher == Exited)
  {
  }

  lemma CloseFrame(s: State, step: CloseStep)
    requires CleanerOk(s)
    ensures var t := CloseNext(s, step);
            && t.callers == s.callers && t.cur == s.cur && t.id == s.id && t.watcher == s.watcher
            && (s.closed ==> t.closed) && CleanerOk(t)
  {
  }

  lemma NextFrame(s: State, step: Step)
    requires CleanerOk(s)
    ensures CleanerOk(Next(s, step)) && (s.closed ==> Next(s, step).closed)
    ensures !step.Calls? && step != NewCaller ==> Next(s, step).callers == s.callers
    ensures s.closed ==> Next(s, step).cur == s.cur && Next(s, step).id == s.id
  {
    match step
    case Binds(b) => BindFrame(s, b);
    case Swaps(w) => SwapFrame(s, w);
    case Retreats(w) => RetreatFrame(s, w);
    case Closes(c) => CloseFrame(s, c);
    case _ =>
  }

  lemma CallerStays(s: State, t: State, c: Caller)
    requires CallerOk(s, c) && (s.closed ==> t.closed) && Later(s.listeners, t.listeners)
    ensures CallerOk(t, c)
  {
  }

  lemma CallerStep(s: State, c: Caller, step: CallStep)
    requires ListenersOk(s) && DutyOk(s) && CallerOk(s, c)
    ensures CallerOk(s, CallerAfter(s, c, step))
  {
  }

  lemma CallersStay(s: State, t: State)
    requires CallersOk(s) && t.callers == s.callers && (s.closed ==> t.closed) && Later(s.listeners, t.listeners)
    ensures CallersOk(t)
  {
    forall a | 0 <= a < |t.callers| ensures CallerOk(t, t.callers[a]) {
      CallerStays(s, t, s.callers[a]);
    }
  }

  lemma CallersStep(s: State, a: nat, call: CallStep)
    requires ListenersOk(s) && DutyOk(s) && CallersOk(s)
    ensures CallersOk(Next(s, Calls(a, call)))
  {
    if a < |s.callers| {
      CallerStep(s, s.callers[a], call);
    }
  }

  lemma NextCallers(s: State, step: Step)
    requires Ok(s)
    ensures CallersOk(Next(s, step))
  {
    if step.Calls? {
      CallersStep(s, step.a, step.call);
    } else if step != NewCaller {
      NextListeners(s, step);
      NextFrame(s, step);
      CallersStay(s, Next(s, step));
    }
  }

  lemma BindDuty(s: State, step: BindStep)
    requires ListenersOk(s) && DutyOk(s)
    ensures DutyOk(BindNext(s, step))
  {
  }

  lemma SwapDuty(s: State, step: SwapStep)
    requires ListenersOk(s) && DutyOk(s)
    ensures DutyOk(SwapNext(s, step))
  {
  }

  lemma RetreatDuty(s: State, step: RetreatStep)
    requires ListenersOk(s) && DutyOk(s)
    ensures DutyOk(RetreatNext(s, step))
  {
  }

  lemma CloseDuty(s: State, step: CloseStep)
    requires ListenersOk(s) && DutyOk(s) && CleanerOk(s)
    ensures DutyOk(CloseNext(s, step))
  {
  }

  lemma NextDuty(s: State, step: Step)
    requires ListenersOk(s) && DutyOk(s) && CleanerOk(s)
    ensures DutyOk(Next(s, step))
  {
    match step
    case Binds(b) => BindDuty(s, b);
    case Swaps(w) => SwapDuty(s, w);
    case Retreats(w) => RetreatDuty(s, w);
    case Closes(c) => CloseDuty(s, c);
    case _ =>
  }

  lemma NextKeeps(s: State, step: Step)
    requires Ok(s)
    ensures Ok(Next(s, step))
  {
    match step {
      case Binds(b) => BindHolds(s, b);
      case Swaps(w) => SwapHolds(s, w);
      case Retreats(w) => RetreatHolds(s, w);
      case Closes(c) => CloseHolds(s, c);
      case _ => SameHolds(s, Next(s, step));
    }
    NextUnique(s, step);
    NextListeners(s, step);
    NextTracked(s, step);
    NextFrame(s, step);
    NextDuty(s, step);
    NextCallers(s, step);
  }

  lemma {:induction false} RunKeeps(s: State, steps: seq<Step>)
    requires Ok(s)
    ensures Ok(Run(s, steps))
    decreases |steps|
  {
    if steps != [] {
      NextKeeps(s, steps[0]);
      RunKeeps(Next(s, steps[0]), steps[1..]);
    }
  }

  lemma StartOk(s: State)
    requires Start(s)
    ensures Ok(s)
  {
    forall h | 0 <= h < |s.holds| ensures HoldOk(s, h) {
    }
  }

  lemma {:induction false} RunConcat(s: State, a: seq<Step>, b: seq<Step>)
    ensures Run(s, a + b) == Run(Run(s, a), b)
    decreases |a|
  {
    if a == [] {
      assert a + b == b;
    } else {
      assert (a + b)[0] == a[0] && (a + b)[1..] == a[1..] + b;
      RunConcat(Next(s, a[0]), a[1..], b);
    }
  }

  lemma RunOne(s: State, x: Step, rest: seq<Step>)
    ensures Run(s, [x] + rest) == Run(Next(s, x), rest)
  {
    assert ([x] + rest)[1..] == rest;
  }

  // ---- the promises ----

  /** In every run no inode hold is released twice, and once Cleanup has finished
      every hold ever taken has been released exactly once. */
  lemma HoldsReleasedOnce(s: State, steps: seq<Step>, h: nat)
    requires Start(s) && h < |Run(s, steps).holds|
    ensures Run(s, steps).holds[h].releases <= 1
    ensures Run(s, steps).cleaner == Finished ==> Run(s, steps).holds[h].releases == 1 && !Run(s, steps).holds[h].live
  {
    StartOk(s);
    RunKeeps(s, steps);
    assert HoldOk(Run(s, steps), h);
  }

  lemma {:induction false} ClosedRun(s: State, steps: seq<Step>)
    requires CleanerOk(s) && s.closed
    ensures Run(s, steps).closed && Run(s, steps).cur == s.cur && Run(s, steps).id == s.id
    decreases |steps|
  {
    if steps != [] {
      NextFrame(s, steps[0]);
      ClosedRun(Next(s, steps[0]), steps[1..]);
    }
  }

  /** After Close, whatever else happens, the published listener and its identity
      never change again. */
  lemma NothingPublishedAfterClose(s: State, before: seq<Step>, after: seq<Step>)
    requires Start(s) && Run(s, before).closed
    ensures Run(s, before + after).closed
    ensures Run(s, before + after).cur == Run(s, before).cur && Run(s, before + after).id == Run(s, before).id
  {
    StartOk(s);
    RunKeeps(s, before);
    RunConcat(s, before, after);
    ClosedRun(Run(s, before), after);
  }

  /** No listener is left open behind the published one: every candidate and every
      replaced listener is closed by the time Cleanup has finished. */
  lemma OthersClosed(s: State, steps: seq<Step>, l: nat)
    requires Start(s) && l < |Run(s, steps).listeners| && Run(s, steps).cleaner == Finished
    ensures Run(s, steps).listeners[l].open ==> l == Run(s, steps).cur
  {
    StartOk(s);
    RunKeeps(s, steps);
  }

  lemma DutyMoves(s: State, step: Step)
    requires s.closed && DutyOk(s)
    ensures Next(s, step).duty == if step == Closes(CloseCurrent) then Done else s.duty
  {
    match step
    case Binds(b) => BindKeepsDuty(s, b);
    case _ =>
  }

  lemma BindKeepsDuty(s: State, step: BindStep)
    ensures BindNext(s, step).duty == s.duty
  {
  }

  lemma {:induction false} DutyOver(s: State, steps: seq<Step>)
    requires Ok(s) && s.closed
    ensures Run(s, steps).duty == if Closes(CloseCurrent) in steps then Done else s.duty
    decreases |steps|
  {
    if steps != [] {
      DutyMoves(s, steps[0]);
      NextKeeps(s, steps[0]);
      NextFrame(s, steps[0]);
      DutyOver(Next(s, steps[0]), steps[1..]);
    }
  }

  predicate OpenAt(s: State, l: nat) { l < |s.listeners| && s.listeners[l].open }

  predicate Listening(s: State) { OpenAt(s, s.cur) }

  /** Nor is the published one left open when Cleanup has finished, except in one case:
      another Close had marked the socket closed before Cleanup began, and has still
      not come to close the listener. */
  lemma PublishedClosed(s: State, before: seq<Step>, after: seq<Step>)
    requires Start(s) && Run(s, before).cleaner == NotStarted
    requires Run(s, before + ([Closes(StartCleanup)] + after)).cleaner == Finished
    ensures var t := Run(s, before + ([Closes(StartCleanup)] + after));
            Listening(t) <==> Run(s, before).duty == Callers && Closes(CloseCurrent) !in after
  {
    StartOk(s);
    RunKeeps(s, before);
    var u := Run(s, before);
    RunConcat(s, before, [Closes(StartCleanup)] + after);
    RunOne(u, Closes(StartCleanup), after);
    NextKeeps(u, Closes(StartCleanup));
    RunKeeps(Next(u, Closes(StartCleanup)), after);
    DutyOver(Next(u, Closes(StartCleanup)), after);
  }

  /** A Close has marked the socket closed, and Cleanup has begun after it. */
  function Overtaken(): State { Fresh().(closed := true, duty := Callers, cleaner := Joining, stopped := true) }

  lemma ReachesOvertaken() returns (steps: seq<Step>)
    ensures Run(Fresh(), steps) == Overtaken()
  {
    steps := [Closes(Close)] + ([Closes(StartCleanup)] + ([Closes(StopWatcher)] + []));
    RunOne(Fresh(), Closes(Close), [Closes(StartCleanup)] + ([Closes(StopWatcher)] + []));
    var s1 := Fresh().(closed := true, duty := Callers);
    RunOne(s1, Closes(StartCleanup), [Closes(StopWatcher)] + []);
    RunOne(s1.(cleaner := Closing), Closes(StopWatcher), []);
  }

  /** That case: Cleanup finishes, and the Close before it has still to close the listener. */
  lemma OvertakenWitness() returns (steps: seq<Step>)
    ensures Run(Fresh(), steps).cleaner == Finished && Listening(Run(Fresh(), steps))
  {
    steps := ReachesOvertaken();
    var rest := [Swaps(Exit)] + ([Closes(JoinWatcher)] + ([Closes(RemoveOwn)] + []));
    RunConcat(Fresh(), steps, rest);
    RunOne(Overtaken(), Swaps(Exit), [Closes(JoinWatcher)] + ([Closes(RemoveOwn)] + []));
    var s1 := Overtaken().(watcher := Exited);
    RunOne(s1, Closes(JoinWatcher), [Closes(RemoveOwn)] + []);
    var s2 := s1.(cleaner := Removing(s1.id));
    RunOne(s2, Closes(RemoveOwn), []);
    assert Removed(s2, s2.id).listeners == Fresh().listeners;
    steps := steps + rest;
  }

  /** An Accept that returns the error of a closed listener does so only on a
      socket that was closed: a swap never surfaces. */
  lemma SwapNeverSurfaces(s: State, steps: seq<Step>, a: nat)
    requires Start(s) && a < |Run(s, steps).callers|
    requires Run(s, steps).callers[a].Errored? && Run(s, steps).callers[a].byClose
    ensures Run(s, steps).closed
  {
    StartOk(s);
    RunKeeps(s, steps);
    assert CallerOk(Run(s, steps), Run(s, steps).callers[a]);
  }

  // ---- whose file is unlinked ----

  /** Where a file of ours may be: it is the one the watcher is working on, or the
      one behind the published identity. */
  predicate Accounted(s: State) {
    s.path.Some? && s.path.value.ours ==>
      match s.watcher
      case Bound(l) => l < |s.listeners| && s.listeners[l].file == s.path.value
      case Chmodded(l) => l < |s.listeners| && s.listeners[l].file == s.path.value
      case Statted(l, _) => l < |s.listeners| && s.listeners[l].file == s.path.value
      case Owned(_, id) => id.stat == s.path.value
      case Retreating(_, id) => id.stat == s.path.value
      case Withdrawing(id) => id.stat == s.path.value
      case Unpinned(_) => false
      case _ => s.cleaner != Finished && s.id.stat == s.path.value
  }

  /** The identity the watcher may remove by. */
  predicate WatchFaithful(s: State) {
    match s.watcher
    case Statted(l, st) => st.ours ==> l < |s.listeners| && st == s.listeners[l].file
    case Owned(_, id) => Faithful(s.holds, id)
    case Retreating(_, id) => Faithful(s.holds, id)
    case Withdrawing(id) => Faithful(s.holds, id)
    case Abandoned(_) => false
    case _ => true
  }

  predicate Tidy(s: State) {
    && s.foreign == 0 && WatchFaithful(s) && Accounted(s)
    && (s.cleaner != Finished ==> Faithful(s.holds, s.id))
  }

  lemma RemovesOwn(s: State, id: Identity)
    requires Ok(s) && Faithful(s.holds, id) && s.holds[id.hold.value].live && Matches(s, id)
    ensures s.path == Some(id.stat) && Removed(s, id).foreign == s.foreign
  {
  }

  lemma WorldTidy(s: State, step: WorldStep)
    requires Tidy(s)
    ensures Tidy(WorldNext(s, step))
  {
  }

  lemma BindTidy(s: State, step: BindStep)
    requires Ok(s) && Tidy(s) && !BindNext(s, step).disturbed
    ensures Tidy(BindNext(s, step))
  {
  }

  lemma SwapTidy(s: State, step: SwapStep)
    requires Ok(s) && Tidy(s)
    ensures Tidy(SwapNext(s, step))
  {
  }

  lemma RetreatTidy(s: State, step: RetreatStep)
    requires Ok(s) && Tidy(s)
    ensures Tidy(RetreatNext(s, step))
  {
    if step == Withdraw && s.watcher.Withdrawing? {
      assert HoldOk(s, s.watcher.wid.hold.value);
      if Matches(s, s.watcher.wid) {
        RemovesOwn(s, s.watcher.wid);
      }
    }
  }

  lemma CloseTidy(s: State, step: CloseStep)
    requires Ok(s) && Tidy(s)
    ensures Tidy(CloseNext(s, step))
  {
    if step == RemoveOwn && s.cleaner.Removing? {
      assert HoldOk(s, s.id.hold.value);
      if Matches(s, s.id) {
        RemovesOwn(s, s.id);
      }
    }
  }

  lemma DisturbedStays(s: State, step: Step)
    ensures s.disturbed ==> Next(s, step).disturbed
  {
  }

  lemma NextTidy(s: State, step: Step)
    requires Ok(s) && Tidy(s) && !Next(s, step).disturbed
    ensures Tidy(Next(s, step))
  {
    match step
    case World(w) => WorldTidy(s, w);
    case Binds(b) => BindTidy(s, b);
    case Swaps(w) => SwapTidy(s, w);
    case Retreats(w) => RetreatTidy(s, w);
    case Closes(c) => CloseTidy(s, c);
    case _ =>
  }

  // ---- exactly when a step spares the sockets of others ----

  /** What sweepers and other daemons may do before a step looks at the path. */
  function WorldRun(s: State, ws: seq<WorldStep>): State
    decreases |ws|
  {
    if ws == [] then s else WorldRun(WorldNext(s, ws[0]), ws[1..])
  }

  predicate ForeignAtPath(s: State) { s.path.Some? && !s.path.value.ours }

  predicate Spared(s: State, ws: seq<WorldStep>, id: Identity) {
    !(Matches(WorldRun(s, ws), id) && ForeignAtPath(WorldRun(s, ws)))
  }

  /** This hold keeps the inode number from any newcomer, and is not itself on one's
      socket standing at the path. */
  predicate Guards(s: State, h: nat, id: Identity) {
    && h < |s.holds| && s.holds[h].live && s.holds[h].file.ino == id.stat.ino
    && (s.holds[h].file.ours || s.path != Some(s.holds[h].file))
  }

  ghost predicate Guarded(s: State, id: Identity) { exists h :: Guards(s, h, id) }

  lemma {:induction false} GuardedStays(s: State, h: nat, id: Identity, ws: seq<WorldStep>)
    requires Guards(s, h, id) && Unique(s.path, s.holds)
    ensures Spared(s, ws, id)
    decreases |ws|
  {
    if ws != [] {
      var t := WorldNext(s, ws[0]);
      if ws[0].NewcomerBinds? && CanBind(s, ws[0].ino) {
        MadeUnique(s, ws[0].ino, false);
        assert t.path.value.ino != id.stat.ino;
      }
      GuardedStays(t, h, id, ws[1..]);
    }
  }

  lemma NewcomerComes(s: State, ino: nat)
    requires !HeldIno(s.holds, ino)
    ensures WorldRun(s, [SweepPath, NewcomerBinds(ino)]).path == Some(File(s.files, ino, false))
  {
    var ws := [SweepPath, NewcomerBinds(ino)];
    var t := WorldNext(s, SweepPath);
    assert ws[1..] == [NewcomerBinds(ino)] && ws[1..][1..] == [];
    assert WorldRun(s, ws) == WorldRun(t, ws[1..]) == WorldNext(t, NewcomerBinds(ino));
  }

  lemma UnguardedFalls(s: State, id: Identity) returns (ws: seq<WorldStep>)
    requires Unique(s.path, s.holds) && !Guarded(s, id)
    ensures !Spared(s, ws, id)
  {
    if HeldIno(s.holds, id.stat.ino) {
      var h :| 0 <= h < |s.holds| && s.holds[h].live && s.holds[h].file.ino == id.stat.ino;
      assert !Guards(s, h, id);
      ws := [];
    } else {
      ws := [SweepPath, NewcomerBinds(id.stat.ino)];
      NewcomerComes(s, id.stat.ino);
    }
  }

  /** In every reachable state and for every identity: a removal by it spares every
      other daemon's socket, whatever the world does first, if and only if some
      live hold guards the number it compares. */
  lemma RemovalSafeExactly(s: State, steps: seq<Step>, id: Identity)
    requires Start(s)
    ensures (forall ws :: Spared(Run(s, steps), ws, id)) <==> Guarded(Run(s, steps), id)
  {
    StartOk(s);
    RunKeeps(s, steps);
    SafeIffGuarded(Run(s, steps), id);
  }

  lemma SafeIffGuarded(t: State, id: Identity)
    requires Unique(t.path, t.holds)
    ensures (forall ws :: Spared(t, ws, id)) <==> Guarded(t, id)
  {
    if h :| Guards(t, h, id) {
      forall ws ensures Spared(t, ws, id) {
        GuardedStays(t, h, id, ws);
      }
    } else {
      var ws := UnguardedFalls(t, id);
    }
  }

  function MaxIno(holds: seq<Hold>): (n: nat)
    ensures forall h :: 0 <= h < |holds| ==> holds[h].file.ino <= n
  {
    if holds == [] then 0
    else
      var m, last := MaxIno(holds[..|holds| - 1]), holds[|holds| - 1].file.ino;
      if last > m then last else m
  }

  /** Closing by name is never safe: a newcomer can always be there first. */
  lemma NameAlwaysFalls(s: State) returns (ws: seq<WorldStep>)
    ensures ForeignAtPath(WorldRun(s, ws))
  {
    var ino := MaxIno(s.holds) + 1;
    ws := [SweepPath, NewcomerBinds(ino)];
    NewcomerComes(s, ino);
  }

  /** The step unlinks no other daemon's socket, whatever the world does just before. */
  ghost predicate Harmless(t: State, step: Step) {
    forall ws :: SparesAll(t, ws, step)
  }

  predicate SparesAll(t: State, ws: seq<WorldStep>, step: Step) { Next(WorldRun(t, ws), step).foreign == t.foreign }

  /** What a step must have to be harmless: the identity it removes by is guarded; a
      close by name never is. */
  ghost predicate UnlinkSafe(t: State, step: Step) {
    match step
    case Closes(RemoveOwn) => t.cleaner.Removing? ==> Guarded(t, t.cleaner.cid)
    case Retreats(Withdraw) => t.watcher.Withdrawing? ==> Guarded(t, t.watcher.wid)
    case Retreats(CloseCandidate) => !t.watcher.Abandoned?
    case _ => true
  }

  lemma {:induction false} WorldFrame(s: State, ws: seq<WorldStep>)
    ensures WorldRun(s, ws) == s.(path := WorldRun(s, ws).path, files := WorldRun(s, ws).files)
    decreases |ws|
  {
    if ws != [] {
      WorldFrame(WorldNext(s, ws[0]), ws[1..]);
    }
  }

  /** Only the three unlinking steps ever move the count of others' sockets lost. */
  lemma ForeignMoves(s: State, step: Step)
    ensures Next(s, step).foreign == s.foreign +
              (if ForeignAtPath(s) && Unlinks(s, step) then 1 else 0)
  {
    match step
    case Binds(b) => BindUnlinksNothing(s, b);
    case Swaps(w) => SwapUnlinksNothing(s, w);
    case Retreats(w) =>
    case Closes(c) => CloseUnlinks(s, c);
    case _ =>
  }

  lemma BindUnlinksNothing(s: State, step: BindStep)
    ensures BindNext(s, step).foreign == s.foreign
  {
  }

  lemma SwapUnlinksNothing(s: State, step: SwapStep)
    ensures SwapNext(s, step).foreign == s.foreign
  {
  }

  lemma CloseUnlinks(s: State, step: CloseStep)
    ensures CloseNext(s, step).foreign == s.foreign +
              (if ForeignAtPath(s) && Unlinks(s, Closes(step)) then 1 else 0)
  {
  }

  predicate Unlinks(s: State, step: Step) {
    match step
    case Closes(RemoveOwn) => s.cleaner.Removing? && Matches(s, s.cleaner.cid)
    case Retreats(Withdraw) => s.watcher.Withdrawing? && Matches(s, s.watcher.wid)
    case Retreats(CloseCandidate) => s.watcher.Abandoned?
    case _ => false
  }

  lemma SparesExactly(t: State, ws: seq<WorldStep>, step: Step)
    ensures SparesAll(t, ws, step) <==> !(ForeignAtPath(WorldRun(t, ws)) && Unlinks(WorldRun(t, ws), step))
  {
    WorldFrame(t, ws);
    ForeignMoves(WorldRun(t, ws), step);
  }

  lemma RemovalHarmless(t: State, step: Step, id: Identity)
    requires Unique(t.path, t.holds)
    requires (step == Closes(RemoveOwn) && t.cleaner == Removing(id))
          || (step == Retreats(Withdraw) && t.watcher == Withdrawing(id))
    ensures Harmless(t, step) <==> Guarded(t, id)
  {
    SafeIffGuarded(t, id);
    forall ws ensures SparesAll(t, ws, step) <==> Spared(t, ws, id) {
      WorldFrame(t, ws);
      SparesExactly(t, ws, step);
    }
    if Harmless(t, step) {
      forall ws ensures Spared(t, ws, id) {
        assert SparesAll(t, ws, step);
      }
    } else {
      var ws :| !SparesAll(t, ws, step);
      assert !Spared(t, ws, id);
    }
  }

  /** For every state that can be reached and every step: it spares the sockets of
      other daemons, whatever the world does just before it, if and only if the
      identity it removes by is guarded; and a close by name never does. */
  lemma HarmlessExactly(t: State, step: Step)
    requires Unique(t.path, t.holds)
    ensures Harmless(t, step) <==> UnlinkSafe(t, step)
  {
    if step == Closes(RemoveOwn) && t.cleaner.Removing? {
      RemovalHarmless(t, step, t.cleaner.cid);
    } else if step == Retreats(Withdraw) && t.watcher.Withdrawing? {
      RemovalHarmless(t, step, t.watcher.wid);
    } else if step == Retreats(CloseCandidate) && t.watcher.Abandoned? {
      var ws := NameAlwaysFalls(t);
      WorldFrame(t, ws);
      SparesExactly(t, ws, step);
    } else {
      forall ws ensures SparesAll(t, ws, step) {
        WorldFrame(t, ws);
        SparesExactly(t, ws, step);
      }
    }
  }

  ghost predicate HarmlessRun(s: State, steps: seq<Step>)
    decreases |steps|
  {
    steps == [] || (Harmless(s, steps[0]) && HarmlessRun(Next(s, steps[0]), steps[1..]))
  }

  ghost predicate GuardedRun(s: State, steps: seq<Step>)
    decreases |steps|
  {
    steps == [] || (UnlinkSafe(s, steps[0]) && GuardedRun(Next(s, steps[0]), steps[1..]))
  }

  lemma {:induction false} RunHarmless(s: State, steps: seq<Step>)
    requires Ok(s)
    ensures HarmlessRun(s, steps) <==> GuardedRun(s, steps)
    ensures GuardedRun(s, steps) ==> Run(s, steps).foreign == s.foreign
    decreases |steps|
  {
    if steps != [] {
      HarmlessExactly(s, steps[0]);
      NextKeeps(s, steps[0]);
      RunHarmless(Next(s, steps[0]), steps[1..]);
      if Harmless(s, steps[0]) {
        assert SparesAll(s, [], steps[0]);
      }
    }
  }

  /** No step of a run can be made to unlink another daemon's socket, whatever the
      world does just before it, if and only if each removal was guarded and
      nothing was closed by name; and then none is unlinked. */
  lemma OnlyOwnFilesUnlinked(s: State, steps: seq<Step>)
    requires Start(s)
    ensures HarmlessRun(s, steps) <==> GuardedRun(s, steps)
    ensures GuardedRun(s, steps) ==> Run(s, steps).foreign == 0
  {
    StartOk(s);
    RunHarmless(s, steps);
  }

  lemma FaithfulGuards(s: State, id: Identity)
    requires Ok(s) && Faithful(s.holds, id) && s.holds[id.hold.value].live
    ensures Guarded(s, id)
  {
    assert Guards(s, id.hold.value, id);
  }

  lemma TidyIsSafe(s: State, step: Step)
    requires Ok(s) && Tidy(s)
    ensures UnlinkSafe(s, step)
  {
    if step == Closes(RemoveOwn) && s.cleaner.Removing? {
      assert HoldOk(s, s.id.hold.value);
      FaithfulGuards(s, s.id);
    } else if step == Retreats(Withdraw) && s.watcher.Withdrawing? {
      assert HoldOk(s, s.watcher.wid.hold.value);
      FaithfulGuards(s, s.watcher.wid);
    }
  }

  lemma {:induction false} DisturbedRun(s: State, steps: seq<Step>)
    ensures s.disturbed ==> Run(s, steps).disturbed
    decreases |steps|
  {
    if steps != [] {
      DisturbedStays(s, steps[0]);
      DisturbedRun(Next(s, steps[0]), steps[1..]);
    }
  }

  lemma {:induction false} UndisturbedGuarded(s: State, steps: seq<Step>)
    requires Ok(s) && Tidy(s) && !Run(s, steps).disturbed
    ensures GuardedRun(s, steps) && Tidy(Run(s, steps))
    decreases |steps|
  {
    if steps != [] {
      var t := Next(s, steps[0]);
      TidyIsSafe(s, steps[0]);
      DisturbedRun(t, steps[1..]);
      NextKeeps(s, steps[0]);
      NextTidy(s, steps[0]);
      UndisturbedGuarded(t, steps[1..]);
    }
  }

  /** A run whose every pin saw our own file twice and whose every chmod worked is
      guarded throughout, and when Cleanup has finished no socket file of ours is
      left behind. */
  lemma FaithfulRunsGuarded(s: State, steps: seq<Step>)
    requires Start(s) && !Run(s, steps).disturbed
    ensures GuardedRun(s, steps)
    ensures var t := Run(s, steps); t.cleaner == Finished && t.path.Some? ==> !t.path.value.ours
  {
    StartOk(s);
    DisturbedRun(s, steps);
    assert Tidy(s);
    UndisturbedGuarded(s, steps);
    RunKeeps(s, steps);
  }

  // ---- the socket heals ----

  /** The daemon is reachable at its path, and everything behind it is in order: the
      file there is the published listener's own, held by the published identity, and
      no other listener is open. */
  predicate Healthy(s: State) {
    && !s.closed && s.watcher == Ticking && Listening(s)
    && s.path == Some(s.listeners[s.cur].file)
    && Faithful(s.holds, s.id) && s.id.stat == s.listeners[s.cur].file && s.holds[s.id.hold.value].live
    && NoStray(s.listeners, s.cur, None)
  }

  /** No path leads to the daemon, and its watcher is between two ticks. */
  predicate Swept(s: State) { !s.closed && s.watcher == Ticking && s.path == None }

  /** What the watcher does about it, with nothing in its way: bind and own a candidate... */
  function BindSteps(ino: nat): seq<Step> {
    [Swaps(Tick)] + ([Binds(Bind(ino))] + ([Binds(Chmod(true))] + ([Binds(Stat)] + ([Binds(Pin(true))] + []))))
  }

  /** ...and put it in the published listener's place. */
  function SwapSteps(): seq<Step> { [Swaps(Publish)] + ([Swaps(CloseOld)] + ([Swaps(ReleaseOld)] + [])) }

  function Candidate(s: State, ino: nat): State {
    var f := File(s.files, ino, true);
    s.(path := Some(f), files := s.files + 1, listeners := s.listeners + [Listener(f, true)],
       holds := s.holds + [Hold(f, true, 0)], watcher := Owned(|s.listeners|, Identity(Some(|s.holds|), f)))
  }

  /** The candidate as it stands before its owner-only mode. */
  function Unowned(s: State, ino: nat): State {
    var f := File(s.files, ino, true);
    s.(path := Some(f), files := s.files + 1, listeners := s.listeners + [Listener(f, true)],
       watcher := Bound(|s.listeners|))
  }

  lemma OwnsCandidate(s: State, ino: nat)
    ensures Run(Unowned(s, ino), [Binds(Chmod(true))] + ([Binds(Stat)] + ([Binds(Pin(true))] + [])))
         == Candidate(s, ino)
  {
    var f, l, u := File(s.files, ino, true), |s.listeners|, Unowned(s, ino);
    RunOne(u, Binds(Chmod(true)), [Binds(Stat)] + ([Binds(Pin(true))] + []));
    assert Next(u, Binds(Chmod(true))) == u.(watcher := Chmodded(l));
    RunOne(u.(watcher := Chmodded(l)), Binds(Stat), [Binds(Pin(true))] + []);
    assert Next(u.(watcher := Chmodded(l)), Binds(Stat)) == u.(watcher := Statted(l, f));
    RunOne(u.(watcher := Statted(l, f)), Binds(Pin(true)), []);
    PinsOwnFile(u.(watcher := Statted(l, f)), f);
  }

  lemma PinsOwnFile(u: State, f: File)
    requires u.watcher.Statted? && u.watcher.st == f && u.path == Some(f) && f.ours
    ensures Next(u, Binds(Pin(true))) ==
              u.(holds := u.holds + [Hold(f, true, 0)], watcher := Owned(u.watcher.l, Identity(Some(|u.holds|), f)))
  {
  }

  lemma BindsCandidate(s: State, ino: nat)
    requires Swept(s) && !HeldIno(s.holds, ino)
    ensures Run(s, BindSteps(ino)) == Candidate(s, ino)
  {
    var rest := [Binds(Chmod(true))] + ([Binds(Stat)] + ([Binds(Pin(true))] + []));
    var s1 := s.(watcher := SawGone);
    RunOne(s, Swaps(Tick), [Binds(Bind(ino))] + rest);
    RunOne(s1, Binds(Bind(ino)), rest);
    assert Next(s1, Binds(Bind(ino))) == Unowned(s, ino);
    OwnsCandidate(s, ino);
  }

  /** On an open socket a candidate takes the published listener's place: the old one is
      closed and its hold let go, and the path is not touched. */
  lemma SwapCompletes(s: State)
    requires Ok(s) && !s.closed && s.watcher.Owned?
    ensures var t := Run(s, SwapSteps());
            && !t.closed && t.watcher == Ticking && t.cur == s.watcher.l && t.id == s.watcher.wid
            && t.listeners == SetOpen(s.listeners, s.cur, false) && Listening(t)
            && t.holds == Released(s.holds, s.id.hold) && t.path == s.path && t.callers == s.callers
  {
    RunOne(s, Swaps(Publish), [Swaps(CloseOld)] + ([Swaps(ReleaseOld)] + []));
    var s1 := Next(s, Swaps(Publish));
    RunOne(s1, Swaps(CloseOld), [Swaps(ReleaseOld)] + []);
    RunOne(Next(s1, Swaps(CloseOld)), Swaps(ReleaseOld), []);
  }

  /** From every open state whose path is gone and whose watcher is between ticks, with
      any number the file system may give, the watcher's own steps end with the daemon
      reachable again, on a new listener, the old one closed. */
  lemma Heals(s: State, steps: seq<Step>, ino: nat)
    requires Start(s) && Swept(Run(s, steps)) && !HeldIno(Run(s, steps).holds, ino)
    ensures var t := Run(Run(s, steps), BindSteps(ino) + SwapSteps());
            Healthy(t) && t.cur == |Run(s, steps).listeners| && !OpenAt(t, Run(s, steps).cur)
  {
    StartOk(s);
    RunKeeps(s, steps);
    SweptHeals(Run(s, steps), ino);
  }

  lemma SweptHeals(u: State, ino: nat)
    requires Ok(u) && Swept(u) && !HeldIno(u.holds, ino)
    ensures var t := Run(u, BindSteps(ino) + SwapSteps());
            Healthy(t) && t.cur == |u.listeners| && !OpenAt(t, u.cur)
  {
    var c := Candidate(u, ino);
    BindsCandidate(u, ino);
    RunKeeps(u, BindSteps(ino));
    RunConcat(u, BindSteps(ino), SwapSteps());
    SwapCompletes(c);
    RunKeeps(c, SwapSteps());
  }

  /** The watcher gives up only on a closed socket. */
  predicate Watching(s: State) {
    && (s.stopped ==> s.closed)
    && (s.watcher.Retreating? || s.watcher.Withdrawing? || s.watcher == Exited ==> s.closed)
  }

  lemma BindWatching(s: State, step: BindStep)
    requires Watching(s)
    ensures Watching(BindNext(s, step))
  {
  }

  lemma NextWatching(s: State, step: Step)
    requires Watching(s) && CleanerOk(s)
    ensures Watching(Next(s, step))
  {
    match step
    case Binds(b) => BindWatching(s, b);
    case _ =>
  }

  lemma {:induction false} RunWatching(s: State, steps: seq<Step>)
    requires Watching(s) && CleanerOk(s)
    ensures Watching(Run(s, steps))
    decreases |steps|
  {
    if steps != [] {
      NextWatching(s, steps[0]);
      NextFrame(s, steps[0]);
      RunWatching(Next(s, steps[0]), steps[1..]);
    }
  }

  predicate WatchersOwn(steps: seq<Step>) {
    forall i :: 0 <= i < |steps| ==> steps[i].Binds? || steps[i].Swaps? || steps[i].Retreats?
  }

  lemma FinishesSwap(s: State) returns (own: seq<Step>)
    requires Ok(s) && !s.closed && s.path == None && s.watcher.Owned?
    ensures WatchersOwn(own) && Swept(Run(s, own)) && own == SwapSteps()
  {
    own := SwapSteps();
    SwapCompletes(s);
  }

  lemma FinishesUnpinned(s: State) returns (own: seq<Step>)
    requires Ok(s) && !s.closed && s.path == None && s.watcher.Statted?
    ensures WatchersOwn(own) && Swept(Run(s, own))
  {
    var pin := Binds(Pin(false));
    NextKeeps(s, pin);
    var more := FinishesSwap(Next(s, pin));
    own := [pin] + more;
    RunOne(s, pin, more);
  }

  /** Whatever the watcher is in the middle of, on an open socket whose path is gone, it
      can finish or abandon, and is between ticks again. */
  lemma FinishesRound(s: State) returns (own: seq<Step>)
    requires Ok(s) && Watching(s) && !s.closed && s.path == None
    ensures WatchersOwn(own) && Swept(Run(s, own))
  {
    match s.watcher
    case Ticking => own := [];
    case SawGone => own := OneStep(s, Binds(BindFails));
    case Bound(l) => own := TwoSteps(s, Binds(Chmod(true)), Retreats(CloseCandidate));
    case Chmodded(l) => own := TwoSteps(s, Binds(Stat), Retreats(CloseCandidate));
    case Statted(l, st) => own := FinishesUnpinned(s);
    case Owned(l, wid) => own := FinishesSwap(s);
    case Swapped(prev, wid) => own := TwoSteps(s, Swaps(CloseOld), Swaps(ReleaseOld));
    case OldClosed(wid) => own := OneStep(s, Swaps(ReleaseOld));
    case Abandoned(l) => own := OneStep(s, Retreats(CloseCandidate));
    case Unpinned(l) => own := OneStep(s, Retreats(CloseCandidate));
  }

  lemma OneStep(s: State, x: Step) returns (own: seq<Step>)
    ensures own == [x] && Run(s, own) == Next(s, x)
  {
    own := [x];
    RunOne(s, x, []);
    assert [x] + [] == own;
  }

  lemma TwoSteps(s: State, x: Step, y: Step) returns (own: seq<Step>)
    ensures own == [x, y] && Run(s, own) == Next(Next(s, x), y)
  {
    own := [x, y];
    RunOne(s, x, [y]);
    var rest := OneStep(Next(s, x), y);
    assert [x] + [y] == own;
  }

  /** In every run, from every moment at which the socket is open and its path gone: the
      watcher has steps of its own that end with the daemon reachable again. */
  lemma HealsFromAnywhere(s: State, steps: seq<Step>) returns (own: seq<Step>)
    requires Start(s) && !Run(s, steps).closed && Run(s, steps).path == None
    ensures WatchersOwn(own) && Healthy(Run(Run(s, steps), own))
  {
    StartOk(s);
    RunKeeps(s, steps);
    RunWatching(s, steps);
    var u := Run(s, steps);
    var first := FinishesRound(u);
    RunKeeps(u, first);
    var v := Run(u, first);
    var ino := MaxIno(v.holds) + 1;
    SweptHeals(v, ino);
    RunConcat(u, first, BindSteps(ino) + SwapSteps());
    own := first + (BindSteps(ino) + SwapSteps());
    RebindIsWatchers(ino);
  }

  lemma RebindIsWatchers(ino: nat)
    ensures WatchersOwn(BindSteps(ino) + SwapSteps())
  {
  }

  /** Until its publish nothing that anyone does takes a candidate's turn away, and on an
      open socket the publish makes it the published listener. */
  lemma CandidateStep(s: State, step: Step)
    requires Ok(s) && s.watcher.Owned?
    ensures step != Swaps(Publish) ==> Next(s, step).watcher == s.watcher && Next(s, step).cur == s.cur
    ensures step == Swaps(Publish) && !s.closed ==>
              var t := Next(s, step);
              t.cur == s.watcher.l && t.id == s.watcher.wid && t.cur != s.cur && Listening(t)
  {
    match step
    case Binds(b) => BindFrame(s, b);
    case _ =>
  }

  lemma {:induction false} CandidatePublished(s: State, steps: seq<Step>)
    requires Ok(s) && s.watcher.Owned? && Swaps(Publish) !in steps && !Run(s, steps).closed
    ensures var t := Next(Run(s, steps), Swaps(Publish));
            t.cur == s.watcher.l && t.id == s.watcher.wid && Listening(t)
    decreases |steps|
  {
    if steps == [] {
      CandidateStep(s, Swaps(Publish));
    } else {
      CandidateStep(s, steps[0]);
      NextKeeps(s, steps[0]);
      CandidatePublished(Next(s, steps[0]), steps[1..]);
    }
  }

  /** An Accept caller blocked on the listener that is replaced comes back on the new one. */
  lemma AcceptComesBack(s: State, a: nat)
    requires Ok(s) && !s.closed && s.watcher.Owned? && a < |s.callers| && s.callers[a] == On(s.cur)
    ensures var t := Run(s, SwapSteps() + ([Calls(a, Fail)] + ([Calls(a, Look)] + ([Calls(a, Enter)] + []))));
            a < |t.callers| && t.callers[a] == On(s.watcher.l) && OpenAt(t, s.watcher.l)
  {
    var back := [Calls(a, Fail)] + ([Calls(a, Look)] + ([Calls(a, Enter)] + []));
    RunConcat(s, SwapSteps(), back);
    SwapCompletes(s);
    var t := Run(s, SwapSteps());
    RunOne(t, Calls(a, Fail), [Calls(a, Look)] + ([Calls(a, Enter)] + []));
    var t1 := t.(callers := t.callers[a := Failed(s.cur, true)]);
    RunOne(t1, Calls(a, Look), [Calls(a, Enter)] + []);
    RunOne(t1.(callers := t1.callers[a := Calling]), Calls(a, Enter), []);
  }

  // ---- how another daemon's socket is lost ----

  function Fresh(): State {
    var f := File(0, 1, true);
    State(Some(f), 1, [Hold(f, true, 0)], [Listener(f, true)], 0, Identity(Some(0), f),
          false, Nobodys, false, Ticking, NotStarted, [], false, 0)
  }

  /** The path is swept twice; our second socket is gone before its chmod. */
  function Stranded(): State {
    Fresh().(path := None, files := 2, listeners := Fresh().listeners + [Listener(File(1, 2, true), true)],
             watcher := Bound(1))
  }

  lemma ReachesStranded() returns (steps: seq<Step>)
    ensures Run(Fresh(), steps) == Stranded()
  {
    steps := [World(SweepPath)] + ([Swaps(Tick)] + ([Binds(Bind(2))] + ([World(SweepPath)] + [])));
    RunOne(Fresh(), World(SweepPath), [Swaps(Tick)] + ([Binds(Bind(2))] + ([World(SweepPath)] + [])));
    var s1 := Fresh().(path := None);
    RunOne(s1, Swaps(Tick), [Binds(Bind(2))] + ([World(SweepPath)] + []));
    var s2 := s1.(watcher := SawGone);
    RunOne(s2, Binds(Bind(2)), [World(SweepPath)] + []);
    RunOne(Next(s2, Binds(Bind(2))), World(SweepPath), []);
  }

  /** A chmod that fails leaves the candidate unlinking by name as it closes, and
      by then the name is a newcomer's. */
  lemma ClosedByNameWitness() returns (steps: seq<Step>)
    ensures Start(Fresh()) && Run(Fresh(), steps).foreign == 1
  {
    steps := ReachesStranded();
    var rest := [Binds(Chmod(true))] + ([World(NewcomerBinds(3))] + ([Retreats(CloseCandidate)] + []));
    RunConcat(Fresh(), steps, rest);
    RunOne(Stranded(), Binds(Chmod(true)), [World(NewcomerBinds(3))] + ([Retreats(CloseCandidate)] + []));
    var s1 := Stranded().(watcher := Abandoned(1), disturbed := true);
    RunOne(s1, World(NewcomerBinds(3)), [Retreats(CloseCandidate)] + []);
    RunOne(Next(s1, World(NewcomerBinds(3))), Retreats(CloseCandidate), []);
    steps := steps + rest;
  }

  /** A newcomer bound the path before the pin, and is pinned in our place. */
  function Misled(): State {
    var theirs := File(2, 3, false);
    Stranded().(path := Some(theirs), files := 3, holds := Fresh().holds + [Hold(theirs, true, 0)],
                watcher := Owned(1, Identity(Some(1), theirs)), disturbed := true)
  }

  lemma ReachesMisled() returns (steps: seq<Step>)
    ensures Run(Fresh(), steps) == Misled()
  {
    steps := ReachesStranded();
    var rest := [World(NewcomerBinds(3))] + ([Binds(Chmod(true))] + ([Binds(Stat)] + ([Binds(Pin(true))] + [])));
    RunConcat(Fresh(), steps, rest);
    var theirs := File(2, 3, false);
    var s1 := Stranded().(path := Some(theirs), files := 3);
    RunOne(Stranded(), World(NewcomerBinds(3)), [Binds(Chmod(true))] + ([Binds(Stat)] + ([Binds(Pin(true))] + [])));
    RunOne(s1, Binds(Chmod(true)), [Binds(Stat)] + ([Binds(Pin(true))] + []));
    RunOne(s1.(watcher := Chmodded(1)), Binds(Stat), [Binds(Pin(true))] + []);
    RunOne(s1.(watcher := Statted(1, theirs)), Binds(Pin(true)), []);
    steps := steps + rest;
  }

  /** When Close comes first, that newcomer's socket is removed as ours. */
  lemma PinnedForeignWitness() returns (steps: seq<Step>)
    ensures Run(Fresh(), steps).foreign == 1
  {
    steps := ReachesMisled();
    var rest := [Closes(Close)] + ([Swaps(Publish)] + ([Retreats(CloseCandidate)] + ([Retreats(Withdraw)] + [])));
    RunConcat(Fresh(), steps, rest);
    var s1 := Misled().(closed := true, duty := Callers);
    RunOne(Misled(), Closes(Close), [Swaps(Publish)] + ([Retreats(CloseCandidate)] + ([Retreats(Withdraw)] + [])));
    RunOne(s1, Swaps(Publish), [Retreats(CloseCandidate)] + ([Retreats(Withdraw)] + []));
    var s2 := s1.(watcher := Retreating(1, Misled().watcher.wid));
    RunOne(s2, Retreats(CloseCandidate), [Retreats(Withdraw)] + []);
    RunOne(Next(s2, Retreats(CloseCandidate)), Retreats(Withdraw), []);
    steps := steps + rest;
  }
}
