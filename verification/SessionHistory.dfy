/** Where the components of a session stand, and whether it is in the set, from its actions alone. */
module SessionHistory {
  import opened Histories
  import opened Sessions

  /** The actions that a run takes, one between each state and the next. */
  predicate Schedules(run: seq<State>, acts: seq<Action>) {
    && |run| == |acts| + 1
    && run[0] == INIT
    && forall j | 0 <= j < |acts| :: Takes(run, acts, j)
  }

  predicate Takes(run: seq<State>, acts: seq<Action>, j: nat)
    requires j < |acts| && |run| == |acts| + 1
  {
    Enabled(run[j], acts[j]) && run[j + 1] == Step(run[j], acts[j])
  }

  lemma ScheduledIsRun(run: seq<State>, acts: seq<Action>)
    requires Schedules(run, acts)
    ensures IsRun(run)
  {
    forall i | 0 < i < |run| ensures NextAt(run, i) {
      assert Takes(run, acts, i - 1);
    }
  }

  /** Every run has its actions. */
  lemma {:induction false} RunIsScheduled(run: seq<State>) returns (acts: seq<Action>)
    requires IsRun(run)
    ensures Schedules(run, acts)
    decreases |run|
  {
    acts := [];
    if |run| > 1 {
      var n := |run| - 1;
      forall i | 0 < i < n ensures NextAt(run[..n], i) {
        assert NextAt(run, i);
      }
      var before := RunIsScheduled(run[..n]);
      assert NextAt(run, n);
      var a :| Enabled(run[n - 1], a) && run[n] == Step(run[n - 1], a);
      acts := before + [a];
      forall j | 0 <= j < |acts| ensures Takes(run, acts, j) {
        if j < |before| {
          assert Takes(run[..n], before, j);
        }
      }
    }
  }

  // ----- what the actions say -----

  /** The component comes to the session. */
  predicate Adds(a: Action, c: Component) {
    match c
    case Ide => a.Start?
    case Launcher => a.AddLauncher?
    case Server => a.AddServer?
  }

  /** It disconnects, or, a Server, is detached. */
  predicate Removes(a: Action, c: Component) {
    a == Disconnect(c) || (c.Server? && a.DetachServer?)
  }

  function AddsOf(c: Component): Action -> bool {
    (a: Action) => Adds(a, c)
  }

  function RemovesOf(c: Component): Action -> bool {
    (a: Action) => Removes(a, c)
  }

  predicate Starts(a: Action) {
    a.Start?
  }

  predicate Ends(a: Action) {
    a.Disconnect? || a.Finalize?
  }

  function LinkAfter(acts: seq<Action>, c: Component): Link {
    if Since(acts, AddsOf(c), RemovesOf(c)) then Connected else if Ever(acts, AddsOf(c)) then Lost else Missing
  }

  lemma LinkMoves(s: State, a: Action, c: Component)
    requires Enabled(s, a)
    ensures LinkOf(Step(s, a), c) == if Adds(a, c) then Connected else if Removes(a, c) then Lost else LinkOf(s, c)
    ensures Removes(a, c) ==> LinkOf(s, c) != Missing && !Adds(a, c)
  {
    match a
    case TimerLook(t) =>
    case Disconnect(d) =>
    case _ =>
  }

  lemma LinkAfterNext(acts: seq<Action>, a: Action, c: Component)
    requires RemovesOf(c)(a) ==> LinkAfter(acts, c) != Missing && !AddsOf(c)(a)
    ensures LinkAfter(acts + [a], c) ==
            if AddsOf(c)(a) then Connected else if RemovesOf(c)(a) then Lost else LinkAfter(acts, c)
  {
    SinceNext(acts, a, AddsOf(c), RemovesOf(c));
    EverNext(acts, a, AddsOf(c));
    SinceIsEver(acts, AddsOf(c), RemovesOf(c));
  }

  lemma StepLink(s: State, acts: seq<Action>, a: Action, c: Component)
    requires Enabled(s, a) && LinkOf(s, c) == LinkAfter(acts, c)
    ensures LinkOf(Step(s, a), c) == LinkAfter(acts + [a], c)
  {
    LinkMoves(s, a, c);
    LinkAfterNext(acts, a, c);
  }

  lemma StepFlags(s: State, acts: seq<Action>, a: Action)
    requires Enabled(s, a) && (s.finalizing <==> Ever(acts, Ends)) && (s.registered <==> Ever(acts, Starts))
    ensures Step(s, a).finalizing <==> Ever(acts + [a], Ends)
    ensures Step(s, a).registered <==> Ever(acts + [a], Starts)
  {
    EverNext(acts, a, Ends);
    EverNext(acts, a, Starts);
  }

  /** In every state of every run a component is connected exactly if it came to the session and
      has not disconnected or been detached since, and missing exactly if it never came; and the
      session is finalizing exactly if a component has disconnected or finalize was called. */
  lemma {:induction false} LinksAre(run: seq<State>, acts: seq<Action>, i: nat, c: Component)
    requires Schedules(run, acts) && i <= |acts|
    ensures LinkOf(run[i], c) == LinkAfter(acts[..i], c)
    ensures run[i].finalizing <==> Ever(acts[..i], Ends)
    ensures run[i].registered <==> Ever(acts[..i], Starts)
  {
    if i > 0 {
      LinksAre(run, acts, i - 1, c);
      assert Takes(run, acts, i - 1);
      assert acts[..i] == acts[..i - 1] + [acts[i - 1]];
      StepLink(run[i - 1], acts[..i - 1], acts[i - 1], c);
      StepFlags(run[i - 1], acts[..i - 1], acts[i - 1]);
    }
  }

  /** A session of which every component that came has gone is not in the set. */
  lemma AllGoneIsNotListed(run: seq<State>, acts: seq<Action>, i: nat)
    requires Schedules(run, acts) && i <= |acts|
    requires forall c: Component :: !Since(acts[..i], AddsOf(c), RemovesOf(c))
    ensures !run[i].listed
  {
    LinksAre(run, acts, i, Ide);
    LinksAre(run, acts, i, Launcher);
    LinksAre(run, acts, i, Server);
    ScheduledIsRun(run, acts);
    ListedIsAlive(run, i);
  }

  // ----- when it leaves -----

  /** A timer has looked at all three components. */
  predicate TimerEnds(run: seq<State>, acts: seq<Action>, j: nat)
    requires Schedules(run, acts) && j < |acts|
  {
    acts[j].TimerLook? && acts[j].timer in run[j].timers && run[j].timers[acts[j].timer].passed >= 3
  }

  /** After action `j` no component is connected. */
  predicate AllGone(run: seq<State>, j: nat)
    requires j + 1 < |run|
  {
    run[j + 1].registered && !AnyConnected(run[j + 1])
  }

  lemma StepListed(s: State, a: Action)
    requires Inv(s) && Enabled(s, a)
    ensures Step(s, a).listed <==>
            && (s.listed || a.Start?)
            && !(Step(s, a).registered && !AnyConnected(Step(s, a)))
            && !(a.TimerLook? && s.timers[a.timer].passed >= 3)
  {
    if a.TimerLook? {
      assert TimerOk(s, s.timers[a.timer]);
    }
  }

  /** A session is in the set exactly if it was started, and since then some component has always
      been connected and no timer has found none. */
  lemma {:induction false} ListedIff(run: seq<State>, acts: seq<Action>, i: nat)
    requires Schedules(run, acts) && i <= |acts|
    ensures run[i].listed <==>
            && Ever(acts[..i], Starts)
            && forall j | 0 <= j < i :: !AllGone(run, j) && !TimerEnds(run, acts, j)
  {
    if i > 0 {
      ListedIff(run, acts, i - 1);
      assert Takes(run, acts, i - 1);
      ScheduledIsRun(run, acts);
      RunInv(run, i - 1);
      StepListed(run[i - 1], acts[i - 1]);
      assert acts[..i] == acts[..i - 1] + [acts[i - 1]];
      EverNext(acts[..i - 1], acts[i - 1], Starts);
      if acts[i - 1].Start? {
        NothingBefore(run, acts, i - 1);
      }
      assert AllGone(run, i - 1) || TimerEnds(run, acts, i - 1) ==> !run[i].listed;
    }
  }

  /** Before its start nothing happens to a session. */
  lemma {:induction false} NothingBefore(run: seq<State>, acts: seq<Action>, i: nat)
    requires Schedules(run, acts) && i <= |acts| && run[i].ide.Missing?
    ensures run[i] == INIT && i == 0
  {
    if i > 0 {
      assert Takes(run, acts, i - 1);
      NothingBefore(run, acts, i - 1);
    }
  }

  // ----- the timers -----

  predicate LooksAt(a: Action, t: nat) {
    a == TimerLook(t)
  }

  function LooksOf(t: nat): Action -> bool {
    (a: Action) => LooksAt(a, t)
  }

  /** Timer `t` started in action `p`, and has looked since then as often as it has passed a
      component; it took those components from the session that were there. */
  predicate StartedAt(run: seq<State>, acts: seq<Action>, i: nat, t: nat, p: nat)
    requires |run| == |acts| + 1 && p < i <= |acts| && t in run[i].timers
  {
    && acts[p] == TimerStart(t)
    && run[i].timers[t].passed == Count(acts[p + 1..i], LooksOf(t))
    && (run[i].timers[t].launcher <==> run[p].launcher != Missing)
    && (run[i].timers[t].server <==> run[p].server != Missing)
  }

  lemma StepTimer(s: State, a: Action, t: nat)
    requires Enabled(s, a) && t in Step(s, a).timers
    ensures a == TimerStart(t) ==> Step(s, a).timers[t] == Timer(s.launcher != Missing, s.server != Missing, 0)
    ensures a != TimerStart(t) ==> t in s.timers
    ensures t in s.timers ==>
              && a != TimerStart(t)
              && Step(s, a).timers[t] ==
                 if LooksAt(a, t) then s.timers[t].(passed := s.timers[t].passed + 1) else s.timers[t]
  {
    match a
    case TimerStart(u) =>
    case TimerLook(u) =>
    case _ => StepLinks(s, a);
  }

  lemma {:induction false} TimerStarted(run: seq<State>, acts: seq<Action>, i: nat, t: nat) returns (p: nat)
    requires Schedules(run, acts) && i <= |acts| && t in run[i].timers
    ensures p < i && StartedAt(run, acts, i, t, p)
  {
    assert i > 0 && Takes(run, acts, i - 1);
    var a := acts[i - 1];
    StepTimer(run[i - 1], a, t);
    if a == TimerStart(t) {
      p := i - 1;
      assert acts[p + 1..i] == [];
    } else {
      p := TimerStarted(run, acts, i - 1, t);
      assert acts[p + 1..i] == acts[p + 1..i - 1] + [a];
      CountNext(acts[p + 1..i - 1], a, LooksOf(t));
    }
  }

  /** The component that a timer looks at next is connected, and one that it took from the session:
      first the IDE, then the launcher, then the server. */
  predicate FindsConnected(s: State, t: Timer) {
    || (t.passed == 0 && s.ide == Connected)
    || (t.passed == 1 && t.launcher && s.launcher == Connected)
    || (t.passed == 2 && t.server && s.server == Connected)
  }

  /** A timer that looks is done exactly if it finds a connected component or has passed all three;
      in that last case alone the session leaves the set. */
  lemma LooksIff(run: seq<State>, acts: seq<Action>, j: nat, t: nat)
    requires Schedules(run, acts) && j < |acts| && acts[j] == TimerLook(t)
    ensures t in run[j].timers
    ensures t in run[j + 1].timers <==> !FindsConnected(run[j], run[j].timers[t]) && run[j].timers[t].passed < 3
    ensures run[j + 1].listed <==> run[j].listed && run[j].timers[t].passed < 3
  {
    assert Takes(run, acts, j);
    ScheduledIsRun(run, acts);
    AllFewPassed(run, j);
    TimerStepIs(run[j], t);
  }

  lemma TimerStepIs(s: State, t: nat)
    requires t in s.timers && s.timers[t].passed <= 3
    ensures t in Look(s, t).timers <==> !FindsConnected(s, s.timers[t]) && s.timers[t].passed < 3
    ensures Look(s, t).listed <==> s.listed && s.timers[t].passed < 3
  {
  }

  predicate FewPassed(s: State) {
    forall t <- s.timers :: s.timers[t].passed <= 3
  }

  lemma StepFewPassed(s: State, a: Action)
    requires FewPassed(s) && Enabled(s, a)
    ensures FewPassed(Step(s, a))
  {
    match a
    case TimerStart(t) =>
    case TimerLook(t) =>
    case _ => StepLinks(s, a);
  }

  lemma {:induction false} AllFewPassed(run: seq<State>, i: nat)
    requires IsRun(run) && i < |run|
    ensures FewPassed(run[i])
  {
    if i > 0 {
      AllFewPassed(run, i - 1);
      assert NextAt(run, i);
      var a :| Enabled(run[i - 1], a) && run[i] == Step(run[i - 1], a);
      StepFewPassed(run[i - 1], a);
    }
  }

  // ----- what can happen -----

  /** An IDE comes once; a launcher or a server comes once, while the IDE is connected; what has come
      can disconnect; and a started session can always be told of a change, be finalized, and have a
      timer look. */
  lemma PossibleIff(run: seq<State>, acts: seq<Action>, i: nat, c: Component, t: nat)
    requires Schedules(run, acts) && i <= |acts|
    ensures Enabled(run[i], Start) <==> LinkAfter(acts[..i], Ide) == Missing
    ensures Enabled(run[i], AddLauncher) <==>
            LinkAfter(acts[..i], Ide) == Connected && LinkAfter(acts[..i], Launcher) == Missing
    ensures Enabled(run[i], AddServer) <==>
            LinkAfter(acts[..i], Ide) == Connected && LinkAfter(acts[..i], Server) == Missing
    ensures Enabled(run[i], Disconnect(c)) <==> LinkAfter(acts[..i], c) != Missing
    ensures Enabled(run[i], DetachServer) <==> Ever(acts[..i], Ends) && LinkAfter(acts[..i], Server) != Missing
    ensures Enabled(run[i], Finalize) <==> Ever(acts[..i], Starts)
    ensures Enabled(run[i], Change) <==> Ever(acts[..i], Starts)
    ensures t !in run[i].timers ==> (Enabled(run[i], TimerStart(t)) <==> Ever(acts[..i], Starts))
    ensures t in run[i].timers ==> Enabled(run[i], TimerLook(t))
  {
    LinksAre(run, acts, i, Ide);
    LinksAre(run, acts, i, Launcher);
    LinksAre(run, acts, i, Server);
  }
}
