/**
 What the client is told about stops, from what happened alone: the actions of a run determine
 the log of notifications, the suspended threads and the callbacks.
 */
module NotificationLog {
  import opened Options
  import opened Histories
  import opened Notifications

  // ----- what the actions say -----

  predicate NewTime(a: Action) {
    a.IncrementSuspendTime?
  }

  predicate Pauses(a: Action) {
    a.OnPause?
  }

  predicate Stops(a: Action) {
    a.Suspend?
  }

  function StopsOf(thread: nat): Action -> bool {
    (a: Action) => a.Suspend? && a.thread == thread
  }

  function ResumesOf(thread: nat): Action -> bool {
    (a: Action) => a == Resume(thread)
  }

  /** The current suspend time: how often a new one was taken. */
  function Times(acts: seq<Action>): nat {
    Count(acts, NewTime)
  }

  /** A pause was requested, and no thread has stopped since. */
  predicate PausePending(acts: seq<Action>) {
    Since(acts, Pauses, Stops)
  }

  /** The thread has stopped, and has not gone on since. */
  predicate Stopped(acts: seq<Action>, thread: nat) {
    Since(acts, StopsOf(thread), ResumesOf(thread))
  }

  ghost predicate AnyStopped(acts: seq<Action>) {
    exists thread: nat :: Stopped(acts, thread)
  }

  /** The time of the stop that an action, behind the others, is to tell of: a thread that stops for
      a reason of its own or while a pause is pending, or a delayed check that finds a thread
      stopped. */
  ghost function ToTell(before: seq<Action>, a: Action): Option<int> {
    match a
    case Suspend(_, threadSuspend) => if !threadSuspend || PausePending(before) then Some(Times(before)) else None
    case CheckPause(time, _) => if AnyStopped(before) then Some(time) else None
    case _ => None
  }

  /** Later than all that the client was told of. */
  predicate Later(time: int, log: seq<Notification>) {
    forall n <- log :: n.time < time
  }

  /** What the client is told: of a stop if it is later than all it was told of before, and that the
      program goes on when a thread does and it was told last of a stop. */
  ghost function Told(acts: seq<Action>): seq<Notification> {
    if acts == [] then []
    else
      var before, a := acts[..|acts| - 1], acts[|acts| - 1];
      var log := Told(before);
      if a.Resume? && log != [] && log[|log| - 1].Suspended? then log + [Resumed(log[|log| - 1].time, a.thread)]
      else if ToTell(before, a).Some? && Later(ToTell(before, a).value, log) then
        log + [Suspended(ToTell(before, a).value, a.thread)]
      else log
  }

  predicate Collects(a: Action) {
    a.SwapCallbacks?
  }

  /** The callbacks that were registered, each with the number of the collection that comes next. */
  function Given(acts: seq<Action>): seq<(nat, nat)> {
    if acts == [] then []
    else
      var before, a := acts[..|acts| - 1], acts[|acts| - 1];
      Given(before) + if a.Register? then [(a.callback, Count(before, Collects) + 1)] else []
  }

  lemma ToldNext(before: seq<Action>, a: Action)
    ensures var log := Told(before);
            Told(before + [a]) ==
            if a.Resume? && log != [] && log[|log| - 1].Suspended? then log + [Resumed(log[|log| - 1].time, a.thread)]
            else if ToTell(before, a).Some? && Later(ToTell(before, a).value, log) then
              log + [Suspended(ToTell(before, a).value, a.thread)]
            else log
  {
    assert (before + [a])[..|before|] == before;
  }

  // ----- the state agrees with what happened -----

  ghost predicate Agrees(s: State, acts: seq<Action>) {
    && s.requestTime == Times(acts) && s.nextTime == Times(acts) + 1
    && (s.pauseRequested <==> PausePending(acts))
    && (forall t: nat :: t in s.suspended <==> Stopped(acts, t))
    && (forall t <- s.pauseChecks :: t >= 0)
    && s.log == Told(acts)
  }

  ghost predicate CallbacksAgree(s: State, acts: seq<Action>) {
    s.registered == Given(acts) && s.swaps == Count(acts, Collects)
  }

  /** The guard of a suspend notification. */
  lemma LaterIff(s: State, time: int)
    requires ClockOk(s) && LogOk(s) && time >= 0
    ensures Later(time, s.log) <==> time > s.lastSuspend
  {
    if time > s.lastSuspend {
      forall n <- s.log ensures n.time < time {
        var k :| 0 <= k < |s.log| && s.log[k] == n;
        LastBounds(s.log, k);
      }
    } else {
      LastIsInLog(s.log);
    }
  }

  lemma {:induction false} LastIsInLog(log: seq<Notification>)
    ensures LastSuspended(log) == -1 || exists n <- log :: n.time == LastSuspended(log)
  {
    if log != [] {
      if log[|log| - 1].Suspended? {
        assert log[|log| - 1] in log;
      } else {
        LastIsInLog(log[..|log| - 1]);
      }
    }
  }

  lemma ResumeTime(s: State)
    requires LogOk(s) && EndsSuspended(s)
    ensures s.log[|s.log| - 1].time == s.lastSuspend
  {
  }

  lemma StopAgrees(s: State, acts: seq<Action>, a: Action, time: int)
    requires ClockOk(s) && LogOk(s) && s.log == Told(acts) && time >= 0
    requires (a.Suspend? || a.CheckPause?) && ToTell(acts, a) == Some(time)
    ensures Told(acts + [a]) == NotifySuspended(s, time, a.thread).log
  {
    ToldNext(acts, a);
    LaterIff(s, time);
  }

  lemma ResumeAgrees(s: State, acts: seq<Action>, t: nat)
    requires ClockOk(s) && LogOk(s) && s.log == Told(acts)
    ensures Told(acts + [Resume(t)]) ==
            if s.lastResume < s.lastSuspend then s.log + [Resumed(s.lastSuspend, t)] else s.log
  {
    ToldNext(acts, Resume(t));
    TimesTell(s);
    if EndsSuspended(s) {
      ResumeTime(s);
    }
  }

  lemma NothingAgrees(acts: seq<Action>, a: Action)
    requires !a.Resume? && ToTell(acts, a).None?
    ensures Told(acts + [a]) == Told(acts)
  {
    ToldNext(acts, a);
  }

  lemma StepLogAgrees(s: State, acts: seq<Action>, a: Action)
    requires Inv(s) && Agrees(s, acts) && Enabled(s, a)
    ensures Step(s, a).log == Told(acts + [a])
  {
    assert AnyStopped(acts) <==> s.suspended != {};
    if a.Resume? {
      ResumeAgrees(s, acts, a.thread);
    } else if ToTell(acts, a).Some? {
      StopAgrees(s, acts, a, ToTell(acts, a).value);
    } else {
      NothingAgrees(acts, a);
    }
  }

  lemma StepTimes(s: State, acts: seq<Action>, a: Action)
    requires s.requestTime == Times(acts) && s.nextTime == Times(acts) + 1 && Enabled(s, a)
    ensures Step(s, a).requestTime == Times(acts + [a]) && Step(s, a).nextTime == Times(acts + [a]) + 1
  {
    CountNext(acts, a, NewTime);
  }

  lemma StepPause(s: State, acts: seq<Action>, a: Action)
    requires (s.pauseRequested <==> PausePending(acts)) && Enabled(s, a)
    ensures Step(s, a).pauseRequested <==> PausePending(acts + [a])
  {
    SinceNext(acts, a, Pauses, Stops);
  }

  lemma StepStopped(s: State, acts: seq<Action>, a: Action, t: nat)
    requires (t in s.suspended <==> Stopped(acts, t)) && Enabled(s, a)
    ensures t in Step(s, a).suspended <==> Stopped(acts + [a], t)
  {
    SinceNext(acts, a, StopsOf(t), ResumesOf(t));
  }

  lemma StepChecks(s: State, a: Action, time: int)
    requires Enabled(s, a)
    ensures Step(s, a).pauseChecks[time] + (if CheckedAt(time)((s, a)) then 1 else 0) ==
            s.pauseChecks[time] + if AskedAt(time)((s, a)) then 1 else 0
  {
  }

  lemma StepAgrees(s: State, acts: seq<Action>, a: Action)
    requires Inv(s) && Agrees(s, acts) && Enabled(s, a)
    ensures Agrees(Step(s, a), acts + [a])
  {
    StepLogAgrees(s, acts, a);
    StepTimes(s, acts, a);
    StepPause(s, acts, a);
    forall t: nat ensures t in Step(s, a).suspended <==> Stopped(acts + [a], t) {
      StepStopped(s, acts, a, t);
    }
    forall t <- Step(s, a).pauseChecks ensures t >= 0 {
      StepChecks(s, a, t);
    }
  }

  lemma StepCallbacksAgree(s: State, acts: seq<Action>, a: Action)
    requires CallbacksAgree(s, acts) && Enabled(s, a)
    ensures CallbacksAgree(Step(s, a), acts + [a])
  {
    CountNext(acts, a, Collects);
    assert (acts + [a])[..|acts|] == acts;
  }

  /** In every state of every run: the suspend time, the pending pause, the threads that stand and
      all that the client was told are what the actions so far determine. */
  lemma {:induction false} LogIsTold(run: seq<State>, acts: seq<Action>, i: nat)
    requires Schedules(run, acts) && i <= |acts|
    ensures run[i].log == Told(acts[..i])
    ensures run[i].requestTime == Times(acts[..i])
    ensures run[i].pauseRequested <==> PausePending(acts[..i])
    ensures forall t: nat :: t in run[i].suspended <==> Stopped(acts[..i], t)
    ensures Agrees(run[i], acts[..i])
  {
    if i > 0 {
      LogIsTold(run, acts, i - 1);
      ScheduledStep(run, acts, i - 1);
      StepAgrees(run[i - 1], acts[..i - 1], acts[i - 1]);
      assert acts[..i] == acts[..i - 1] + [acts[i - 1]];
    }
  }

  /** And the callbacks registered are those of the actions, numbered by collections. */
  lemma {:induction false} RegisteredIsGiven(run: seq<State>, acts: seq<Action>, i: nat)
    requires Schedules(run, acts) && i <= |acts|
    ensures run[i].registered == Given(acts[..i])
    ensures run[i].swaps == Count(acts[..i], Collects)
  {
    if i > 0 {
      RegisteredIsGiven(run, acts, i - 1);
      ScheduledStep(run, acts, i - 1);
      StepCallbacksAgree(run[i - 1], acts[..i - 1], acts[i - 1]);
      assert acts[..i] == acts[..i - 1] + [acts[i - 1]];
    }
  }

  // ----- a pending check -----

  function PausesAt(past: seq<(State, Action)>, time: int): nat {
    Count(past, AskedAt(time))
  }

  /** A pause is requested while the suspend time is `time`. */
  function AskedAt(time: int): ((State, Action)) -> bool {
    (p: (State, Action)) => p.1.OnPause? && p.0.requestTime == time
  }

  function CheckedAt(time: int): ((State, Action)) -> bool {
    (p: (State, Action)) => p.1.CheckPause? && p.1.time == time
  }

  /** What happened before state `i`, with the states it happened in. */
  function Past(run: seq<State>, acts: seq<Action>, i: nat): seq<(State, Action)>
    requires i <= |acts| && |run| == |acts| + 1
  {
    seq(i, j requires 0 <= j < i => (run[j], acts[j]))
  }

  lemma PastNext(run: seq<State>, acts: seq<Action>, i: nat)
    requires i < |acts| && |run| == |acts| + 1
    ensures Past(run, acts, i + 1) == Past(run, acts, i) + [(run[i], acts[i])]
  {
  }

  /** There is one delayed check for each pause request, with the suspend time of that moment. */
  lemma {:induction false} OneCheckEach(run: seq<State>, acts: seq<Action>, i: nat, time: int)
    requires Schedules(run, acts) && i <= |acts|
    ensures run[i].pauseChecks[time] + Count(Past(run, acts, i), CheckedAt(time)) == PausesAt(Past(run, acts, i), time)
  {
    if i > 0 {
      OneCheckEach(run, acts, i - 1, time);
      ScheduledStep(run, acts, i - 1);
      var x := (run[i - 1], acts[i - 1]);
      PastNext(run, acts, i - 1);
      StepChecks(run[i - 1], acts[i - 1], time);
      CountNext(Past(run, acts, i - 1), x, AskedAt(time));
      CountNext(Past(run, acts, i - 1), x, CheckedAt(time));
    }
  }

  // ----- a new suspend time -----

  /** From `j` on the suspend time is not changed, and nothing is to be told of that time. */
  ghost predicate QuietAt(acts: seq<Action>, j: nat, k: nat)
    requires j <= k <= |acts|
  {
    forall m | j <= m < k :: !NewTime(acts[m]) && ToTell(acts[..m], acts[m]) != Some(Times(acts[..m]))
  }

  lemma {:induction false} StaysEarlier(run: seq<State>, acts: seq<Action>, j: nat, k: nat)
    requires Schedules(run, acts) && j < k <= |acts| && NewTime(acts[j]) && QuietAt(acts, j + 1, k)
    ensures Times(acts[..k]) == Times(acts[..j]) + 1
    ensures Later(Times(acts[..k]), Told(acts[..k]))
    decreases k
  {
    assert acts[..k] == acts[..k - 1] + [acts[k - 1]];
    if k - 1 == j {
      NewTimeIsLater(run, acts, j);
    } else {
      StaysEarlier(run, acts, j, k - 1);
      ToTellIsPast(run, acts, k - 1);
      assert !NewTime(acts[k - 1]);
    }
    EarlierStep(acts[..k - 1], acts[k - 1]);
  }

  /** A new time is later than all that was told. */
  lemma NewTimeIsLater(run: seq<State>, acts: seq<Action>, j: nat)
    requires Schedules(run, acts) && j < |acts|
    ensures Later(Times(acts[..j]) + 1, Told(acts[..j]))
  {
    LogIsTold(run, acts, j);
    ScheduledStep(run, acts, j);
    LaterIff(run[j], run[j].requestTime + 1);
  }

  lemma EarlierStep(before: seq<Action>, a: Action)
    requires if NewTime(a) then Later(Times(before) + 1, Told(before))
             else Later(Times(before), Told(before))
                  && (ToTell(before, a).Some? ==> ToTell(before, a).value < Times(before))
    ensures Times(before + [a]) == Times(before) + if NewTime(a) then 1 else 0
    ensures Later(Times(before + [a]), Told(before + [a]))
  {
    CountNext(before, a, NewTime);
    ToldNext(before, a);
  }

  /** Nothing is told of a time that is still to come. */
  lemma ToTellIsPast(run: seq<State>, acts: seq<Action>, k: nat)
    requires Schedules(run, acts) && k < |acts|
    ensures ToTell(acts[..k], acts[k]).Some? ==> ToTell(acts[..k], acts[k]).value <= Times(acts[..k])
  {
    LogIsTold(run, acts, k);
    ScheduledStep(run, acts, k);
  }

  /** After a new suspend time was taken, the first action that is to tell of a stop at that time
      does so, with a time later than all that the client was told of. */
  lemma FirstStopIsTold(run: seq<State>, acts: seq<Action>, j: nat, k: nat)
    requires Schedules(run, acts) && j < k < |acts| && NewTime(acts[j]) && QuietAt(acts, j + 1, k)
    requires ToTell(acts[..k], acts[k]) == Some(Times(acts[..k]))
    ensures run[k + 1].log == run[k].log + [Suspended(Times(acts[..j]) + 1, acts[k].thread)]
    ensures Later(Times(acts[..j]) + 1, run[k].log)
  {
    StaysEarlier(run, acts, j, k);
    LogIsTold(run, acts, k);
    LogIsTold(run, acts, k + 1);
    assert acts[..k + 1] == acts[..k] + [acts[k]];
    TellsNow(acts[..k], acts[k]);
  }

  lemma TellsNow(before: seq<Action>, a: Action)
    requires ToTell(before, a).Some? && Later(ToTell(before, a).value, Told(before))
    ensures Told(before + [a]) == Told(before) + [Suspended(ToTell(before, a).value, a.thread)]
  {
    ToldNext(before, a);
  }

  // ----- what can happen -----

  /** While no resume notification is under way: a thread can stop exactly if it does not stand, and
      go on exactly if it does; a delayed check can run exactly if a pause was requested at its time
      more often than checks ran, and it finds some thread if any stands. */
  lemma PossibleIff(run: seq<State>, acts: seq<Action>, i: nat, t: nat, time: int)
    requires Schedules(run, acts) && i <= |acts| && run[i].phase.Free?
    ensures Enabled(run[i], IncrementSuspendTime) && Enabled(run[i], OnPause)
    ensures Enabled(run[i], Suspend(t, false)) <==> !Stopped(acts[..i], t)
    ensures Enabled(run[i], Suspend(t, true)) <==> !Stopped(acts[..i], t)
    ensures Enabled(run[i], Resume(t)) <==> Stopped(acts[..i], t)
    ensures Enabled(run[i], CheckPause(time, t)) <==>
            && PausesAt(Past(run, acts, i), time) > Count(Past(run, acts, i), CheckedAt(time))
            && (AnyStopped(acts[..i]) ==> Stopped(acts[..i], t))
  {
    LogIsTold(run, acts, i);
    OneCheckEach(run, acts, i, time);
    assert AnyStopped(acts[..i]) <==> run[i].suspended != {};
  }
}
