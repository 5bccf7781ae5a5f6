/** Which notifications about threads are decided and sent, from the actions of a run. */
module ThreadHistory {
  import opened Options
  import opened Histories
  import opened Threads

  /** The actions that a run takes, one between each state and the next. */
  predicate Schedules(run: seq<State>, acts: seq<Action>) {
    && |run| == |acts| + 1
    && run[0] == INIT
    && forall j | 0 <= j < |acts| :: Takes(run, acts, j)
  }

  predicate Takes(run: seq<State>, acts: seq<Action>, j: nat)
    requires j < |acts| && |run| == |acts| + 1
  {
    Enabled(run[j], acts[j]) && run[j + 1] == Step(run[j], acts[j])
  }

  lemma ScheduledIsRun(run: seq<State>, acts: seq<Action>)
    requires Schedules(run, acts)
    ensures IsRun(run)
  {
    forall i | 0 < i < |run| ensures NextAt(run, i) {
      assert Takes(run, acts, i - 1);
    }
  }

  /** Every run has its actions. */
  lemma {:induction false} RunIsScheduled(run: seq<State>) returns (acts: seq<Action>)
    requires IsRun(run)
    ensures Schedules(run, acts)
    decreases |run|
  {
    acts := [];
    if |run| > 1 {
      var n := |run| - 1;
      forall i | 0 < i < n ensures NextAt(run[..n], i) {
        assert NextAt(run, i);
      }
      var before := RunIsScheduled(run[..n]);
      var a := StepOf(run, n - 1);
      acts := before + [a];
      ScheduleNext(run, before, a);
    }
  }

  lemma ScheduleNext(run: seq<State>, acts: seq<Action>, a: Action)
    requires |run| > 1 && Schedules(run[..|run| - 1], acts)
    requires Enabled(run[|run| - 2], a) && run[|run| - 1] == Step(run[|run| - 2], a)
    ensures Schedules(run, acts + [a])
  {
    forall j | 0 <= j < |acts| + 1 ensures Takes(run, acts + [a], j) {
      if j < |acts| {
        assert Takes(run[..|run| - 1], acts, j);
      }
    }
  }

  /** An action, and the state in which it is taken. */
  type Moment = (State, Action)

  function Past(run: seq<State>, acts: seq<Action>, i: nat): seq<Moment>
    requires i <= |acts| && |run| == |acts| + 1
  {
    seq(i, j requires 0 <= j < i => (run[j], acts[j]))
  }

  lemma ScheduledStep(run: seq<State>, acts: seq<Action>, i: nat)
    requires Schedules(run, acts) && i < |acts|
    ensures Inv(run[i]) && Enabled(run[i], acts[i]) && run[i + 1] == Step(run[i], acts[i])
    ensures Past(run, acts, i + 1) == Past(run, acts, i) + [(run[i], acts[i])]
  {
    assert Takes(run, acts, i);
    ScheduledIsRun(run, acts);
    RunInv(run, i);
  }

  // ----- the switches -----

  predicate StartsWriter(p: Moment) {
    p.1.StartWriter?
  }

  predicate TurnsOn(p: Moment) {
    p.1 == SetEnabled(true)
  }

  predicate TurnsOff(p: Moment) {
    p.1 == SetEnabled(false)
  }

  /** Notifications are turned on when they were not. */
  predicate Begins(p: Moment) {
    p.1 == SetEnabled(true) && !p.0.enabled
  }

  /** There is a writer once it was started; notifications are on exactly if they were turned on and
      not off since; and periods count how often they came on. */
  lemma {:induction false} SwitchesAre(run: seq<State>, acts: seq<Action>, i: nat)
    requires Schedules(run, acts) && i <= |acts|
    ensures run[i].writer <==> Ever(Past(run, acts, i), StartsWriter)
    ensures run[i].enabled <==> Since(Past(run, acts, i), TurnsOn, TurnsOff)
    ensures run[i].period == Count(Past(run, acts, i), Begins)
  {
    if i > 0 {
      SwitchesAre(run, acts, i - 1);
      ScheduledStep(run, acts, i - 1);
      SwitchesNext(run[i - 1], acts[i - 1], Past(run, acts, i - 1));
    }
  }

  predicate SwitchesAgree(s: State, past: seq<Moment>) {
    && (s.writer <==> Ever(past, StartsWriter))
    && (s.enabled <==> Since(past, TurnsOn, TurnsOff))
    && s.period == Count(past, Begins)
  }

  lemma SwitchesNext(s: State, a: Action, past: seq<Moment>)
    requires Enabled(s, a) && SwitchesAgree(s, past)
    ensures SwitchesAgree(Step(s, a), past + [(s, a)])
  {
    EverNext(past, (s, a), StartsWriter);
    SinceNext(past, (s, a), TurnsOn, TurnsOff);
    CountNext(past, (s, a), Begins);
    StepSwitches(s, a);
  }

  lemma StepSwitches(s: State, a: Action)
    requires Enabled(s, a)
    ensures var s' := Step(s, a);
            && (s'.writer <==> s.writer || a.StartWriter?)
            && (s'.enabled <==> a == SetEnabled(true) || (s.enabled && a != SetEnabled(false)))
            && s'.period == s.period + if a == SetEnabled(true) && !s.enabled then 1 else 0
  {
  }

  // ----- decisions -----

  predicate KilledIn(decided: seq<(Message, nat)>, t: Thread) {
    exists d <- decided :: d.0 == Killed(t)
  }

  /** The thread was announced in this period, and not reported killed since. */
  predicate Known(s: State, t: Thread) {
    (Created(t), s.period) in s.decided && !KilledIn(s.decided, t)
  }

  predicate KnownId(s: State, id: string) {
    exists d <- s.decided :: d.0.thread.id == id && Known(s, d.0.thread)
  }

  ghost predicate MarkedOk(s: State) {
    forall t: Thread :: t in s.marked <==> KilledIn(s.decided, t)
  }

  lemma StepMarked(s: State, a: Action)
    requires Inv(s) && MarkedOk(s) && Enabled(s, a)
    ensures MarkedOk(Step(s, a))
  {
    forall t: Thread ensures t in Step(s, a).marked <==> KilledIn(Step(s, a).decided, t) {
      var d, d' := s.decided, Step(s, a).decided;
      assert KilledIn(d, t) <==> t in s.marked;
      if |d'| > |d| {
        assert d' == d + [d'[|d|]];
        assert KilledIn(d', t) <==> KilledIn(d, t) || d'[|d|].0 == Killed(t);
      }
    }
  }

  /** The table holds exactly the threads that are known. */
  lemma TableIff(s: State, id: string, t: Thread)
    requires TableOk(s) && MarksOk(s) && MarkedOk(s)
    ensures id in s.running && s.running[id] == t <==> t.id == id && Known(s, t)
  {
    assert KilledIn(s.decided, t) <==> t in s.marked;
  }

  lemma KnownIdIff(s: State, id: string)
    requires TableOk(s) && MarksOk(s) && MarkedOk(s)
    ensures KnownId(s, id) <==> id in s.running
  {
    if id in s.running {
      TableIff(s, id, s.running[id]);
      assert (Created(s.running[id]), s.period) in s.decided;
    }
    if d :| d in s.decided && d.0.thread.id == id && Known(s, d.0.thread) {
      TableIff(s, id, d.0.thread);
    }
  }

  /** What an action decides: with a writer and notifications on, that a thread was created, if
      no thread with its id is known and it was never reported killed; or that the known thread with
      an id was killed. */
  ghost predicate Decides(s: State, a: Action, d: (Message, nat)) {
    && s.writer && s.enabled && d.1 == s.period
    && match d.0
       case Created(t) => a.NotifyCreated? && a.thread == t && !KnownId(s, t.id) && !KilledIn(s.decided, t)
       case Killed(t) => a.NotifyNotAlive? && a.id == t.id && Known(s, t)
  }

  lemma StepDecides(s: State, a: Action, d: (Message, nat))
    requires Inv(s) && MarkedOk(s) && Enabled(s, a)
    ensures Step(s, a).decided == s.decided + [d] <==> Decides(s, a, d)
    ensures |Step(s, a).decided| <= |s.decided| + 1 && s.decided <= Step(s, a).decided
  {
    KnownIdIff(s, d.0.thread.id);
    TableIff(s, d.0.thread.id, d.0.thread);
    if Step(s, a).decided == s.decided + [d] {
      assert Step(s, a).decided[|s.decided|] == d;
    }
  }

  lemma {:induction false} MarkedHolds(run: seq<State>, acts: seq<Action>, i: nat)
    requires Schedules(run, acts) && i <= |acts|
    ensures MarkedOk(run[i])
  {
    if i > 0 {
      MarkedHolds(run, acts, i - 1);
      ScheduledStep(run, acts, i - 1);
      StepMarked(run[i - 1], acts[i - 1]);
    }
  }

  /** In every run a notification is decided exactly when it is due, and the table has under each id
      the known thread. */
  lemma DecidedIff(run: seq<State>, acts: seq<Action>, j: nat, d: (Message, nat))
    requires Schedules(run, acts) && j < |acts|
    ensures run[j + 1].decided == run[j].decided + [d] <==> Decides(run[j], acts[j], d)
    ensures run[j + 1].decided == run[j].decided
            || exists e: (Message, nat) :: run[j + 1].decided == run[j].decided + [e]
    ensures forall id <- run[j].running :: run[j].running[id].id == id && Known(run[j], run[j].running[id])
    ensures forall t: Thread :: Known(run[j], t) ==> t.id in run[j].running && run[j].running[t.id] == t
  {
    ScheduledStep(run, acts, j);
    MarkedHolds(run, acts, j);
    StepDecides(run[j], acts[j], d);
    var ds, ds' := run[j].decided, run[j + 1].decided;
    if |ds'| > |ds| {
      assert ds' == ds + [ds'[|ds|]];
    } else {
      assert ds' == ds;
    }
    forall id <- run[j].running ensures run[j].running[id].id == id && Known(run[j], run[j].running[id]) {
      TableIff(run[j], id, run[j].running[id]);
    }
    forall t: Thread | Known(run[j], t) ensures t.id in run[j].running && run[j].running[t.id] == t {
      TableIff(run[j], t.id, t);
    }
  }

  // ----- the wire -----

  predicate Direct(a: Action) {
    (a.NotifyCreated? || a.NotifyNotAlive?) && a.direct
  }

  /** What a step sends and what it leaves to be sent, when it decides `d`. */
  predicate SendsDecided(s: State, a: Action, s': State, d: (Message, nat)) {
    if Direct(a) then s'.wire == s.wire + [d.0] && s'.pending == s.pending
    else s'.wire == s.wire && s'.pending == s.pending + multiset{d.0}
  }

  /** What a step that decides nothing sends: the message it is to send, if any. */
  predicate SendsOnly(s: State, a: Action, s': State) {
    && s'.wire == (if a.Send? then s.wire + [a.message] else s.wire)
    && s'.pending == if a.Send? then s.pending - multiset{a.message} else s.pending
  }

  lemma StepSends(s: State, a: Action, d: (Message, nat))
    requires Enabled(s, a)
    ensures Step(s, a).decided == s.decided + [d] ==> SendsDecided(s, a, Step(s, a), d)
    ensures Step(s, a).decided == s.decided ==> SendsOnly(s, a, Step(s, a))
  {
    var s' := Step(s, a);
    assert |s'.decided| > |s.decided| ==> s'.decided[|s.decided|].0 == s'.decided[|s'.decided| - 1].0;
    assert s'.decided == s.decided + [d] ==> s'.decided[|s.decided|] == d;
    match a
    case NotifyCreated(t, direct) =>
    case NotifyNotAlive(id, direct) =>
    case _ =>
  }

  /** What is decided is sent at once or later, as its action says, and a message that was left to be
      sent is sent by Send; nothing else is. */
  lemma SentAtOnceOrLater(run: seq<State>, acts: seq<Action>, j: nat, d: (Message, nat))
    requires Schedules(run, acts) && j < |acts|
    ensures run[j + 1].decided == run[j].decided + [d] ==> SendsDecided(run[j], acts[j], run[j + 1], d)
    ensures run[j + 1].decided == run[j].decided ==> SendsOnly(run[j], acts[j], run[j + 1])
  {
    ScheduledStep(run, acts, j);
    StepSends(run[j], acts[j], d);
  }

  // ----- the reconciliation pass -----

  /** After the pass the table holds, under each id, exactly the thread that some view shows alive, no
      daemon and none of the debugger's, unless it is marked as killed. */
  lemma ReconciledIff(s: State, views: seq<View>, dead: seq<string>, t: Thread)
    requires Inv(s) && s.writer && s.enabled && IdsTellThreads(s.running, views)
    requires forall id :: id in dead <==> id in CreateAll(s, views).running && id !in AliveIds(views)
    ensures var running := KillAll(CreateAll(s, views), dead).running;
            t.id in running && running[t.id] == t <==>
            t !in s.marked && exists v <- views :: v.thread == t && v.alive && !v.daemon && !v.debuggerThread
  {
    TableIsReconciled(s, views, dead);
  }
}
