/**
 The end of a debug session: it leaves the adapter's set of sessions when its last component
 disconnects.

 Components change while the session is locked, and every change is followed by
 notify_changed, still under the lock. The timer of a wait_for with a timeout calls
 notify_changed without the lock, so there it is several steps.
 */
module Sessions {

  datatype Link = Missing | Connected | Lost

  datatype Component = Ide | Launcher | Server

  /** A timer in notify_changed: the components that it took from the session, and how many of
      them it has found not to be connected. */
  datatype Timer = Timer(launcher: bool, server: bool, passed: nat)

  datatype State = State(
    ide: Link,
    launcher: Link,
    server: Link,
    registered: bool,
    listed: bool,
    finalizing: bool,
    finalizations: nat,
    timers: map<nat, Timer>)

  const INIT := State(Missing, Missing, Missing, false, false, false, 0, map[])

  datatype Action =
    | Start
    | AddLauncher
    | AddServer
    | Disconnect(component: Component)
    | DetachServer
    | Finalize
    | Change
    | TimerStart(timer: nat)
    | TimerLook(timer: nat)

  function LinkOf(s: State, c: Component): Link {
    match c
    case Ide => s.ide
    case Launcher => s.launcher
    case Server => s.server
  }

  predicate AnyConnected(s: State) {
    s.ide == Connected || s.launcher == Connected || s.server == Connected
  }

  /** The launcher and the server are added by handlers of the IDE's requests, which run before
      the handler of its disconnect. */
  predicate Enabled(s: State, a: Action) {
    match a
    case Start => s.ide == Missing
    case AddLauncher => s.ide == Connected && s.launcher == Missing
    case AddServer => s.ide == Connected && s.server == Missing
    case Disconnect(c) => LinkOf(s, c) != Missing
    case DetachServer => s.finalizing && s.server != Missing
    case Finalize => s.registered
    case Change => s.registered
    case TimerStart(t) => s.registered && t !in s.timers
    case TimerLook(t) => t in s.timers
  }

  function Notify(s: State): State {
    if AnyConnected(s) then s else s.(listed := false)
  }

  function Lose(s: State, c: Component): State {
    match c
    case Ide => s.(ide := Lost)
    case Launcher => s.(launcher := Lost)
    case Server => s.(server := Lost)
  }

  function BeginFinalize(s: State): State {
    if s.finalizing then s else Notify(s.(finalizing := true, finalizations := s.finalizations + 1))
  }

  /** Whether the component that the timer looks at next is connected. */
  predicate SeesConnected(s: State, t: Timer) {
    match t.passed
    case 0 => s.ide == Connected
    case 1 => t.launcher && s.launcher == Connected
    case 2 => t.server && s.server == Connected
    case _ => false
  }

  function Look(s: State, t: nat): State
    requires t in s.timers
  {
    var timer := s.timers[t];
    if SeesConnected(s, timer) then s.(timers := s.timers - {t})
    else if timer.passed < 3 then s.(timers := s.timers[t := timer.(passed := timer.passed + 1)])
    else s.(timers := s.timers - {t}, listed := false)
  }

  function Step(s: State, a: Action): State
    requires Enabled(s, a)
  {
    match a
    case Start => s.(ide := Connected, registered := true, listed := true)
    case AddLauncher => Notify(s.(launcher := Connected))
    case AddServer => Notify(s.(server := Connected))
    case Disconnect(c) => BeginFinalize(Notify(Lose(s, c)))
    case DetachServer => Notify(s.(server := Lost))
    case Finalize => BeginFinalize(s)
    case Change => Notify(s)
    case TimerStart(t) => s.(timers := s.timers[t := Timer(s.launcher != Missing, s.server != Missing, 0)])
    case TimerLook(t) => Look(s, t)
  }

  ghost predicate Next(s: State, s': State) {
    exists a: Action :: Enabled(s, a) && s' == Step(s, a)
  }

  ghost predicate NextAt(run: seq<State>, i: nat)
    requires 0 < i < |run|
  {
    Next(run[i - 1], run[i])
  }

  ghost predicate IsRun(run: seq<State>) {
    && run != []
    && run[0] == INIT
    && forall i | 0 < i < |run| :: NextAt(run, i)
  }

  /** What the timer has passed stays lost. */
  ghost predicate TimerOk(s: State, t: Timer) {
    && (t.passed > 0 ==> s.ide == Lost)
    && (t.launcher ==> s.launcher != Missing)
    && (t.server ==> s.server != Missing)
    && (t.passed > 1 && t.launcher ==> s.launcher == Lost)
    && (t.passed > 2 && t.server ==> s.server == Lost)
  }

  ghost predicate TimersOk(s: State) {
    forall t <- s.timers :: TimerOk(s, s.timers[t])
  }

  ghost predicate Inv(s: State) {
    && (s.registered <==> s.ide != Missing)
    && (s.listed ==> s.registered && AnyConnected(s))
    && (s.ide == Connected ==> s.listed)
    && (s.ide == Missing ==> s.launcher == Missing && s.server == Missing)
    && s.finalizations == (if s.finalizing then 1 else 0)
    && TimersOk(s)
    && (s.timers.Keys != {} ==> s.registered)
  }

  /** A component goes from missing to connected to lost. */
  predicate Forward(a: Link, b: Link) {
    a == b || a == Missing || b == Lost
  }

  lemma TimersStay(s: State, s': State)
    requires TimersOk(s) && s'.timers == s.timers
    requires Forward(s.ide, s'.ide) && Forward(s.launcher, s'.launcher) && Forward(s.server, s'.server)
    requires s.ide == Lost ==> s'.ide == Lost
    ensures TimersOk(s')
  {
    forall t <- s'.timers ensures TimerOk(s', s'.timers[t]) {
      assert TimerOk(s, s.timers[t]);
    }
  }

  lemma LookTimers(s: State, t: nat)
    requires TimersOk(s) && t in s.timers && s.ide != Missing
    ensures TimersOk(Look(s, t))
  {
    assert TimerOk(s, s.timers[t]);
    var s' := Look(s, t);
    forall u <- s'.timers ensures TimerOk(s', s'.timers[u]) {
      assert u in s.timers && TimerOk(s, s.timers[u]);
    }
  }

  lemma StepTimers(s: State, a: Action)
    requires Inv(s) && Enabled(s, a)
    ensures TimersOk(Step(s, a))
  {
    match a
    case TimerStart(t) =>
      var s' := Step(s, a);
      forall u <- s'.timers ensures TimerOk(s', s'.timers[u]) {
        assert u in s.timers ==> TimerOk(s, s.timers[u]);
      }
    case TimerLook(t) => LookTimers(s, t);
    case _ => TimersStay(s, Step(s, a));
  }

  lemma StepInv(s: State, a: Action)
    requires Inv(s) && Enabled(s, a)
    ensures Inv(Step(s, a))
  {
    StepTimers(s, a);
    match a {
      case TimerLook(t) => LookInv(s, t);
      case _ =>
    }
  }

  lemma LookInv(s: State, t: nat)
    requires Inv(s) && t in s.timers && TimersOk(Look(s, t))
    ensures Inv(Look(s, t))
  {
    assert TimerOk(s, s.timers[t]);
  }

  lemma {:induction false} RunInv(run: seq<State>, i: nat)
    requires IsRun(run) && i < |run|
    ensures Inv(run[i])
  {
    if i > 0 {
      RunInv(run, i - 1);
      assert NextAt(run, i);
      var a :| Enabled(run[i - 1], a) && run[i] == Step(run[i - 1], a);
      StepInv(run[i - 1], a);
    }
  }

  // ----- over every run -----

  /** A session in the set has a connected component; one whose IDE is connected is in the set;
      and it is finalized at most once. */
  lemma ListedIsAlive(run: seq<State>, i: nat)
    requires IsRun(run) && i < |run|
    ensures run[i].listed ==> AnyConnected(run[i])
    ensures run[i].ide == Connected ==> run[i].listed
    ensures run[i].finalizations <= 1
  {
    RunInv(run, i);
  }

  /** A session that has left the set does not come back. */
  lemma {:induction false} NeverReturns(run: seq<State>, i: nat, j: nat)
    requires IsRun(run) && i <= j < |run|
    requires run[i].registered && !run[i].listed
    ensures run[j].registered && !run[j].listed
    decreases j - i
  {
    if i < j {
      NeverReturns(run, i, j - 1);
      RunInv(run, j - 1);
      assert NextAt(run, j);
      StaysOut(run[j - 1], run[j]);
    }
  }

  lemma StaysOut(s: State, s': State)
    requires Inv(s) && Next(s, s') && s.registered && !s.listed
    ensures s'.registered && !s'.listed
  {
  }

  /** A component that the timer did not find in the session is connected. */
  predicate CameLater(s: State, t: Timer) {
    (!t.launcher && s.launcher == Connected) || (!t.server && s.server == Connected)
  }

  /** A session that leaves the set has no connected component left, except, exactly, if a timer
      took it out and a component that was added after the timer started is connected. */
  lemma LeavesWithTheLast(run: seq<State>, i: nat, a: Action)
    requires IsRun(run) && i < |run| && Enabled(run[i], a)
    requires run[i].listed && !Step(run[i], a).listed
    ensures AnyConnected(run[i])
    ensures AnyConnected(Step(run[i], a)) <==> a.TimerLook? && CameLater(run[i], run[i].timers[a.timer])
  {
    RunInv(run, i);
    if a.TimerLook? {
      assert TimerOk(run[i], run[i].timers[a.timer]);
    }
  }

  /** No component is added while a timer is at work. */
  ghost predicate TimersSeeAll(run: seq<State>) {
    forall i | 0 < i < |run| && run[i - 1].timers != map[] ::
      && (run[i - 1].launcher == Missing ==> run[i].launcher == Missing)
      && (run[i - 1].server == Missing ==> run[i].server == Missing)
  }

  ghost predicate SawAll(s: State) {
    forall t <- s.timers ::
      s.timers[t].launcher == (s.launcher != Missing) && s.timers[t].server == (s.server != Missing)
  }

  lemma SawAllStays(s: State, s': State)
    requires SawAll(s) && s'.timers == s.timers
    requires s.timers != map[] ==>
               (s.launcher == Missing <==> s'.launcher == Missing) && (s.server == Missing <==> s'.server == Missing)
    ensures SawAll(s')
  {
  }

  lemma LookSawAll(s: State, t: nat)
    requires SawAll(s) && t in s.timers
    ensures SawAll(Look(s, t))
  {
    var s' := Look(s, t);
    assert forall u <- s'.timers ::
        u in s.timers && s'.timers[u].launcher == s.timers[u].launcher && s'.timers[u].server == s.timers[u].server;
  }

  lemma StepSawAll(s: State, a: Action)
    requires Inv(s) && SawAll(s) && Enabled(s, a)
    requires s.timers != map[] && s.launcher == Missing ==> Step(s, a).launcher == Missing
    requires s.timers != map[] && s.server == Missing ==> Step(s, a).server == Missing
    ensures SawAll(Step(s, a))
  {
    match a {
      case TimerStart(t) => StartSawAll(s, t);
      case TimerLook(t) => LookSawAll(s, t);
      case _ =>
        StepLinks(s, a);
        SawAllStays(s, Step(s, a));
    }
  }

  lemma StartSawAll(s: State, t: nat)
    requires SawAll(s) && Enabled(s, TimerStart(t))
    ensures SawAll(Step(s, TimerStart(t)))
  {
  }

  /** A component never goes back to missing. */
  lemma StepLinks(s: State, a: Action)
    requires Enabled(s, a) && !a.TimerStart? && !a.TimerLook?
    ensures var s' := Step(s, a);
            && s'.timers == s.timers
            && (s.launcher != Missing ==> s'.launcher != Missing) && (s.server != Missing ==> s'.server != Missing)
  {
  }

  /** A session is in the set exactly if it has a connected component. */
  predicate Kept(s: State) {
    s.listed <==> AnyConnected(s)
  }

  lemma StepKept(s: State, a: Action)
    requires Inv(s) && SawAll(s) && Kept(s) && Enabled(s, a)
    ensures Kept(Step(s, a))
  {
    match a
    case TimerLook(t) => assert TimerOk(s, s.timers[t]);
    case _ =>
  }

  /** Then the session is in the set exactly while a component is connected: it leaves in the
      step that disconnects the last one. */
  lemma {:induction false} ListedExactlyWhileConnected(run: seq<State>, i: nat)
    requires IsRun(run) && i < |run| && TimersSeeAll(run)
    ensures run[i].listed <==> AnyConnected(run[i])
    ensures SawAll(run[i])
  {
    if i > 0 {
      ListedExactlyWhileConnected(run, i - 1);
      RunInv(run, i - 1);
      assert NextAt(run, i);
      var a :| Enabled(run[i - 1], a) && run[i] == Step(run[i - 1], a);
      StepSawAll(run[i - 1], a);
      StepKept(run[i - 1], a);
    }
  }

  lemma Extend(run: seq<State>, a: Action) returns (longer: seq<State>)
    requires IsRun(run) && Enabled(run[|run| - 1], a)
    ensures IsRun(longer) && longer[|longer| - 1] == Step(run[|run| - 1], a)
  {
    var s := run[|run| - 1];
    assert Enabled(s, a) && Step(s, a) == Step(s, a);
    assert Next(s, Step(s, a));
    longer := run + [Step(s, a)];
    forall i | 0 < i < |longer| ensures NextAt(longer, i) {
      if i < |run| {
        assert NextAt(run, i);
      }
    }
  }

  /** The timer has read the session's components, a server attaches, the IDE disconnects: the
      timer takes the session out of the set while its server is connected. */
  lemma LeftTooEarly() returns (run: seq<State>)
    ensures IsRun(run)
    ensures var s := run[|run| - 1]; s.registered && !s.listed && s.server == Connected
  {
    run := Extend([INIT], Start);
    run := Extend(run, TimerStart(0));
    run := Extend(run, AddServer);
    run := Extend(run, Disconnect(Ide));
    assert run[|run| - 1] == State(Lost, Missing, Connected, true, true, true, 1, map[0 := Timer(false, false, 0)]);
    run := Extend(run, TimerLook(0));
    run := Extend(run, TimerLook(0));
    assert run[|run| - 1] == State(Lost, Missing, Connected, true, true, true, 1, map[0 := Timer(false, false, 2)]);
    run := Extend(run, TimerLook(0));
    run := Extend(run, TimerLook(0));
  }

  // ----- the session object and the set of sessions -----

  class Registry {
    var sessions: set<Session>

    constructor ()
      ensures sessions == {}
    {
      sessions := {};
    }
  }

  class Session {
    var ide: Link
    var launcher: Link
    var server: Link
    var isFinalizing: bool
    ghost var registered: bool
    ghost var finalizations: nat
    ghost var timers: map<nat, Timer>

    constructor (r: Registry)
      ensures Now(r) == INIT
    {
      ide, launcher, server := Missing, Missing, Missing;
      isFinalizing, registered, finalizations, timers := false, false, 0, map[];
    }

    ghost function Now(r: Registry): State
      reads this, r
    {
      State(ide, launcher, server, registered, this in r.sessions, isFinalizing, finalizations, timers)
    }

    /** notify_changed, while the session is locked. */
    method NotifyChanged(r: Registry)
      modifies r
      ensures Now(r) == Notify(old(Now(r)))
      ensures r.sessions - {this} == old(r.sessions) - {this}
    {
      var components := [ide, launcher, server];
      for i := 0 to |components|
        invariant r.sessions == old(r.sessions) && forall j | 0 <= j < i :: components[j] != Connected
      {
        if components[i] == Connected {
          assert AnyConnected(Now(r));
          return;
        }
      }
      assert components[0] == ide && components[1] == launcher && components[2] == server;
      if this in r.sessions {
        r.sessions := r.sessions - {this};
      }
    }

    /** IDE.__init__: the IDE is connected, and the session is registered. */
    method Start(r: Registry)
      requires ide == Missing
      modifies this, r
      ensures Now(r) == Step(old(Now(r)), Action.Start)
      ensures r.sessions - {this} == old(r.sessions) - {this}
    {
      ide := Connected;
      NotifyChanged(r);
      r.sessions := r.sessions + {this};
      registered := true;
    }

    /** Component.disconnect. */
    method Disconnect(r: Registry, c: Component)
      requires LinkOf(Now(r), c) != Missing
      modifies this, r
      ensures Now(r) == Step(old(Now(r)), Action.Disconnect(c))
      ensures r.sessions - {this} == old(r.sessions) - {this}
    {
      match c {
        case Ide => ide := Lost;
        case Launcher => launcher := Lost;
        case Server => server := Lost;
      }
      NotifyChanged(r);
      Finalize(r);
    }

    /** finalize, up to the work of _finalize. */
    method Finalize(r: Registry)
      modifies this, r
      ensures Now(r) == BeginFinalize(old(Now(r)))
      ensures r.sessions - {this} == old(r.sessions) - {this}
    {
      if isFinalizing {
        return;
      }
      isFinalizing := true;
      NotifyChanged(r);
      finalizations := finalizations + 1;
    }

    /** Server.detach_from_session, as _finalize calls it. */
    method DetachServer(r: Registry)
      requires isFinalizing && server != Missing
      modifies this, r
      ensures Now(r) == Step(old(Now(r)), Action.DetachServer)
      ensures r.sessions - {this} == old(r.sessions) - {this}
    {
      server := Lost;
      NotifyChanged(r);
    }
  }
}
