/**
 The single-notification behaviour of pydevd: many threads that stop for one reason lead to
 one suspend notification, and to one resume notification when the first of them goes on.

 A run interleaves suspending and resuming threads, pause requests and their delayed checks,
 new suspend times, and the registration of callbacks. Everything but registration happens
 under one lock; callbacks have their own.
 */
module Notifications {
  import opened Options

  /** `Suspended` carries the logical time of the stop it reports; so does `Resumed`. */
  datatype Notification = Suspended(time: int, thread: nat) | Resumed(time: int, thread: nat)

  /** What a resume notification still has to do, with the lock held. */
  datatype Phase = Free | Announced | Draining(rest: seq<nat>)

  /** `log`, `registered` and `ran` are histories: the notifications sent, each callback with
      the number of the resume notification that is the first to collect it, and each callback
      with the number of the one that ran it. */
  datatype State = State(
    nextTime: int,
    requestTime: int,
    lastSuspend: int,
    lastResume: int,
    suspended: set<nat>,
    pauseRequested: bool,
    pauseChecks: multiset<int>,
    callbacks: seq<nat>,
    phase: Phase,
    log: seq<Notification>,
    registered: seq<(nat, nat)>,
    ran: seq<(nat, nat)>,
    swaps: nat)

  const INIT := State(1, 0, -1, -1, {}, false, multiset{}, [], Free, [], [], [], 0)

  datatype Action =
    | IncrementSuspendTime
    | OnPause
    | CheckPause(time: int, thread: nat)
    | Suspend(thread: nat, threadSuspend: bool)   // threadSuspend: the reason is CMD_THREAD_SUSPEND
    | Resume(thread: nat)
    | SwapCallbacks
    | RunCallback
    | Register(callback: nat)

  predicate Enabled(s: State, a: Action) {
    match a
    case Register(_) => true
    case SwapCallbacks => s.phase.Announced?
    case RunCallback => s.phase.Draining?
    case CheckPause(time, thread) =>
      s.phase.Free? && time in s.pauseChecks && (s.suspended != {} ==> thread in s.suspended)
    case Suspend(thread, _) => s.phase.Free? && thread !in s.suspended
    case Resume(thread) => s.phase.Free? && thread in s.suspended
    case _ => s.phase.Free?
  }

  function NotifySuspended(s: State, time: int, thread: nat): State {
    if time > s.lastSuspend then s.(lastSuspend := time, log := s.log + [Suspended(time, thread)]) else s
  }

  function Step(s: State, a: Action): State
    requires Enabled(s, a)
  {
    match a
    case IncrementSuspendTime => s.(requestTime := s.nextTime, nextTime := s.nextTime + 1)
    case OnPause => s.(pauseRequested := true, pauseChecks := s.pauseChecks + multiset{s.requestTime})
    case CheckPause(time, thread) =>
      var s1 := s.(pauseChecks := s.pauseChecks - multiset{time});
      if s.suspended != {} then NotifySuspended(s1, time, thread) else s1
    case Suspend(thread, threadSuspend) =>
      var s1 := s.(pauseRequested := false, suspended := s.suspended + {thread});
      if !threadSuspend || s.pauseRequested then NotifySuspended(s1, s.requestTime, thread) else s1
    case Resume(thread) =>
      var s1 := s.(suspended := s.suspended - {thread});
      if s.lastResume < s.lastSuspend
      then s1.(lastResume := s.lastSuspend, log := s.log + [Resumed(s.lastSuspend, thread)], phase := Announced)
      else s1
    case SwapCallbacks => s.(phase := Draining(s.callbacks), callbacks := [], swaps := s.swaps + 1)
    case RunCallback =>
      if s.phase.rest == [] then s.(phase := Free)
      else s.(phase := Draining(s.phase.rest[1..]), ran := s.ran + [(s.phase.rest[0], s.swaps)])
    case Register(callback) =>
      s.(callbacks := s.callbacks + [callback], registered := s.registered + [(callback, s.swaps + 1)])
  }

  ghost predicate NextAt(run: seq<State>, i: nat)
    requires 0 < i < |run|
  {
    Next(run[i - 1], run[i])
  }

  ghost predicate IsRun(run: seq<State>) {
    && run != []
    && run[0] == INIT
    && forall i | 0 < i < |run| :: NextAt(run, i)
  }

  ghost predicate Next(s: State, s': State) {
    exists a: Action :: Enabled(s, a) && s' == Step(s, a)
  }

  // ----- the clock -----

  predicate ClockOk(s: State) {
    && -1 <= s.lastResume <= s.lastSuspend <= s.requestTime < s.nextTime
    && (forall t <- s.pauseChecks :: t <= s.requestTime)
  }

  /** Nobody is left suspended behind the back of a client that was told to go on, and the
      other way round. */
  predicate SettledOk(s: State) {
    s.suspended == {} ==> s.lastResume == s.lastSuspend
  }

  /** The last time that notifications of the given kind in `log` carry, or -1. */
  function LastSuspended(log: seq<Notification>): int {
    if log == [] then -1
    else if log[|log| - 1].Suspended? then log[|log| - 1].time else LastSuspended(log[..|log| - 1])
  }

  function LastResumed(log: seq<Notification>): int {
    if log == [] then -1
    else if log[|log| - 1].Resumed? then log[|log| - 1].time else LastResumed(log[..|log| - 1])
  }

  /** Suspend notifications carry later and later times; a resume notification repeats the
      time of the last suspend notification, and only one does. */
  predicate Alternates(log: seq<Notification>) {
    log == [] ||
    (var init, n := log[..|log| - 1], log[|log| - 1];
     && Alternates(init)
     && if n.Suspended? then n.time > LastSuspended(init)
        else n.time == LastSuspended(init) > LastResumed(init))
  }

  predicate LogOk(s: State) {
    && Alternates(s.log)
    && LastSuspended(s.log) == s.lastSuspend
    && LastResumed(s.log) == s.lastResume
  }

  // ----- the callbacks -----

  function Numbered(callbacks: seq<nat>, swap: nat): seq<(nat, nat)> {
    seq(|callbacks|, i requires 0 <= i < |callbacks| => (callbacks[i], swap))
  }

  function Rest(s: State): seq<nat> {
    if s.phase.Draining? then s.phase.rest else []
  }

  /** Those that ran, those about to run and those waiting are the registered ones, in order,
      each with the number of the resume notification that is due to run it. */
  predicate CallbacksOk(s: State) {
    s.registered == s.ran + Numbered(Rest(s), s.swaps) + Numbered(s.callbacks, s.swaps + 1)
  }

  function Resumes(log: seq<Notification>): nat {
    if log == [] then 0
    else Resumes(log[..|log| - 1]) + if log[|log| - 1].Resumed? then 1 else 0
  }

  function Suspends(log: seq<Notification>): nat {
    if log == [] then 0
    else Suspends(log[..|log| - 1]) + if log[|log| - 1].Suspended? then 1 else 0
  }

  /** Callbacks are collected once for each resume notification. */
  predicate SwapsOk(s: State) {
    Resumes(s.log) == s.swaps + if s.phase.Announced? then 1 else 0
  }

  ghost predicate Inv(s: State) {
    ClockOk(s) && SettledOk(s) && LogOk(s) && CallbacksOk(s) && SwapsOk(s)
  }

  // ----- preservation -----

  lemma AppendLog(log: seq<Notification>, n: Notification)
    ensures (log + [n])[..|log|] == log
  {
  }

  lemma StepClock(s: State, a: Action)
    requires ClockOk(s) && SettledOk(s) && Enabled(s, a)
    ensures ClockOk(Step(s, a)) && SettledOk(Step(s, a))
  {
  }

  lemma StepLog(s: State, a: Action)
    requires ClockOk(s) && LogOk(s) && SwapsOk(s) && Enabled(s, a)
    ensures LogOk(Step(s, a)) && SwapsOk(Step(s, a))
  {
    var s' := Step(s, a);
    if s'.log != s.log {
      AppendLog(s.log, s'.log[|s.log|]);
    }
  }

  lemma StepCallbacks(s: State, a: Action)
    requires CallbacksOk(s) && Enabled(s, a)
    ensures CallbacksOk(Step(s, a))
  {
    match a
    case SwapCallbacks =>
      assert Numbered(Rest(s), s.swaps) == [];
      assert s.ran + [] + Numbered(s.callbacks, s.swaps + 1) == s.ran + Numbered(s.callbacks, s.swaps + 1) + [];
    case RunCallback =>
      if s.phase.rest != [] {
        var r := s.phase.rest;
        assert Numbered(r, s.swaps) == [(r[0], s.swaps)] + Numbered(r[1..], s.swaps);
        assert s.ran + Numbered(r, s.swaps) == s.ran + [(r[0], s.swaps)] + Numbered(r[1..], s.swaps);
      }
    case Register(c) =>
      assert Numbered(s.callbacks + [c], s.swaps + 1) == Numbered(s.callbacks, s.swaps + 1) + [(c, s.swaps + 1)];
    case _ => assert Rest(Step(s, a)) == Rest(s);
  }

  lemma {:induction false} RunInv(run: seq<State>, i: nat)
    requires IsRun(run) && i < |run|
    ensures Inv(run[i])
  {
    if i > 0 {
      RunInv(run, i - 1);
      assert NextAt(run, i);
      var a :| Enabled(run[i - 1], a) && run[i] == Step(run[i - 1], a);
      StepClock(run[i - 1], a);
      StepLog(run[i - 1], a);
      StepCallbacks(run[i - 1], a);
    }
  }

  // ----- over every run -----

  /** At every step no resume is ahead of the suspends, and no suspend ahead of the requests. */
  lemma ClockIsOrdered(run: seq<State>, i: nat)
    requires IsRun(run) && i < |run|
    ensures -1 <= run[i].lastResume <= run[i].lastSuspend <= run[i].requestTime < run[i].nextTime
  {
    RunInv(run, i);
  }

  lemma {:induction false} LastBounds(log: seq<Notification>, k: nat)
    requires Alternates(log) && k < |log|
    ensures LastResumed(log) <= LastSuspended(log)
    ensures log[k].time <= if log[k].Suspended? then LastSuspended(log) else LastResumed(log)
    ensures log[k].Resumed? ==> exists j | 0 <= j < k :: log[j].Suspended? && log[j].time == log[k].time
    decreases |log|
  {
    var init, n := log[..|log| - 1], log[|log| - 1];
    if init != [] {
      LastBounds(init, if k < |init| then k else 0);
      if k < |init| {
        assert init[k] == log[k];
      }
    }
    if k == |init| && n.Resumed? {
      LastIsThere(init);
    }
  }

  lemma {:induction false} LastIsThere(log: seq<Notification>)
    requires Alternates(log) && LastSuspended(log) > LastResumed(log)
    ensures exists j | 0 <= j < |log| :: log[j].Suspended? && log[j].time == LastSuspended(log)
    decreases |log|
  {
    if log != [] && log[|log| - 1].Suspended? {
      assert log[|log| - 1].time == LastSuspended(log);
    }
  }

  lemma {:induction false} TimesIncrease(log: seq<Notification>, j: nat, k: nat)
    requires Alternates(log) && j < k < |log| && log[j].Suspended? == log[k].Suspended?
    ensures log[j].time < log[k].time
    decreases |log|
  {
    var init := log[..|log| - 1];
    if k < |init| {
      TimesIncrease(init, j, k);
    } else {
      LastBounds(init, j);
      assert init[j] == log[j];
    }
  }

  lemma {:induction false} PrefixAlternates(log: seq<Notification>, k: nat)
    requires Alternates(log) && k <= |log|
    ensures Alternates(log[..k])
    decreases |log|
  {
    if k == |log| {
      assert log[..k] == log;
    } else {
      assert log[..|log| - 1][..k] == log[..k];
      PrefixAlternates(log[..|log| - 1], k);
    }
  }

  lemma {:induction false} FewerResumes(log: seq<Notification>)
    requires Alternates(log)
    ensures Resumes(log) <= Suspends(log)
    ensures LastResumed(log) < LastSuspended(log) ==> Resumes(log) < Suspends(log)
    ensures LastResumed(log) <= LastSuspended(log)
    decreases |log|
  {
    if log != [] {
      FewerResumes(log[..|log| - 1]);
    }
  }

  /** Suspend notifications carry strictly increasing times, so do resume notifications, and
      each of these repeats the time of an earlier suspend notification; so no prefix of what
      is sent has more resumes than suspends. */
  lemma NotificationsAreOrdered(run: seq<State>, i: nat)
    requires IsRun(run) && i < |run|
    ensures var log := run[i].log;
            && (forall j, k | 0 <= j < k < |log| && log[j].Suspended? == log[k].Suspended? :: log[j].time < log[k].time)
            && (forall k | 0 <= k < |log| && log[k].Resumed? ::
                  exists j | 0 <= j < k :: log[j].Suspended? && log[j].time == log[k].time)
            && (forall k | 0 <= k <= |log| :: Resumes(log[..k]) <= Suspends(log[..k]))
  {
    RunInv(run, i);
    var log := run[i].log;
    forall j, k | 0 <= j < k < |log| && log[j].Suspended? == log[k].Suspended? ensures log[j].time < log[k].time {
      TimesIncrease(log, j, k);
    }
    forall k | 0 <= k < |log| && log[k].Resumed?
      ensures exists j | 0 <= j < k :: log[j].Suspended? && log[j].time == log[k].time
    {
      LastBounds(log, k);
    }
    forall k | 0 <= k <= |log| ensures Resumes(log[..k]) <= Suspends(log[..k]) {
      PrefixAlternates(log, k);
      FewerResumes(log[..k]);
    }
  }

  /** Whenever no thread is suspended, the client was told last that the program goes on. */
  lemma NotLeftPaused(run: seq<State>, i: nat)
    requires IsRun(run) && i < |run| && run[i].suspended == {}
    ensures run[i].lastResume == run[i].lastSuspend
    ensures run[i].log == [] || run[i].log[|run[i].log| - 1].Resumed?
  {
    RunInv(run, i);
    var log := run[i].log;
    if log != [] {
      FewerResumes(log[..|log| - 1]);
    }
  }

  /** The converse does not hold: the first thread that goes on is reported for all of them. */
  lemma MayBeToldEarly() returns (run: seq<State>)
    ensures IsRun(run)
    ensures var s := run[|run| - 1]; s.suspended != {} && s.log != [] && s.log[|s.log| - 1].Resumed?
  {
    var s1 := Step(INIT, Suspend(1, false));
    var s2 := Step(s1, Suspend(2, false));
    var s3 := Step(s2, Resume(1));
    assert Next(INIT, s1) && Next(s1, s2) && Next(s2, s3);
    assert 2 in s3.suspended;
    run := [INIT, s1, s2, s3];
  }

  /** The actions that a run takes, one between each state and the next. */
  predicate Schedules(run: seq<State>, acts: seq<Action>) {
    && |run| == |acts| + 1
    && run[0] == INIT
    && forall j | 0 <= j < |acts| :: Takes(run, acts, j)
  }

  predicate Takes(run: seq<State>, acts: seq<Action>, j: nat)
    requires j < |acts| && |run| == |acts| + 1
  {
    Enabled(run[j], acts[j]) && run[j + 1] == Step(run[j], acts[j])
  }

  lemma ScheduledIsRun(run: seq<State>, acts: seq<Action>)
    requires Schedules(run, acts)
    ensures IsRun(run)
  {
    forall i | 0 < i < |run| ensures NextAt(run, i) {
      assert Takes(run, acts, i - 1);
    }
  }

  /** Every run has its actions. */
  lemma {:induction false} RunIsScheduled(run: seq<State>) returns (acts: seq<Action>)
    requires IsRun(run)
    ensures Schedules(run, acts)
    decreases |run|
  {
    acts := [];
    if |run| > 1 {
      var n := |run| - 1;
      forall i | 0 < i < n ensures NextAt(run[..n], i) {
        assert NextAt(run, i);
      }
      var before := RunIsScheduled(run[..n]);
      assert NextAt(run, n);
      var a :| Enabled(run[n - 1], a) && run[n] == Step(run[n - 1], a);
      acts := before + [a];
      forall j | 0 <= j < |acts| ensures Takes(run, acts, j) {
        if j < |before| {
          assert Takes(run[..n], before, j);
        }
      }
    }
  }

  /** The time for which an action wants to tell of a stop: a thread that stops, unless it only
      follows another and no pause is pending, or a pause check while some thread is stopped. */
  function StopTime(s: State, a: Action): Option<int> {
    match a
    case Suspend(_, threadSuspend) => if !threadSuspend || s.pauseRequested then Some(s.requestTime) else None
    case CheckPause(time, _) => if s.suspended != {} then Some(time) else None
    case _ => None
  }

  /** Action `j` is a thread that goes on while the client was told last that one is suspended. */
  predicate Tells(run: seq<State>, acts: seq<Action>, j: nat)
    requires j < |acts| && |run| == |acts| + 1
  {
    acts[j].Resume? && EndsSuspended(run[j])
  }

  /** After action `j`, and before state `i`, no action wants to tell of a stop that is later than
      the last suspend notification before `j`. */
  predicate QuietSince(run: seq<State>, acts: seq<Action>, j: nat, i: nat)
    requires j < i <= |acts| && |run| == |acts| + 1
  {
    forall k | j < k < i ::
      StopTime(run[k], acts[k]).Some? ==> StopTime(run[k], acts[k]).value <= LastSuspended(run[j].log)
  }

  predicate EndsResumed(s: State) {
    s.log != [] && s.log[|s.log| - 1].Resumed?
  }

  predicate EndsSuspended(s: State) {
    s.log != [] && s.log[|s.log| - 1].Suspended?
  }

  /** The two times that the guard of the resume notification compares. */
  lemma TimesTell(s: State)
    requires ClockOk(s) && LogOk(s)
    ensures s.lastResume < s.lastSuspend <==> EndsSuspended(s)
  {
    if s.log != [] {
      var init := s.log[..|s.log| - 1];
      if init != [] {
        LastBounds(init, 0);
      }
      assert LastResumed(init) <= LastSuspended(init);
    }
  }

  lemma QuietStep(s: State, a: Action)
    requires Inv(s) && Enabled(s, a)
    ensures var s' := Step(s, a);
            && s.log <= s'.log
            && (|s'.log| > |s.log| && !a.Resume? ==>
                  StopTime(s, a).Some? && StopTime(s, a).value > s.lastSuspend && !EndsResumed(s'))
            && (|s'.log| > |s.log| && a.Resume? ==> EndsResumed(s') && s'.lastSuspend == s.lastSuspend)
            && (a.Resume? ==> (|s'.log| > |s.log| <==> EndsSuspended(s)))
            && (|s'.log| == |s.log| ==> s'.log == s.log && s'.lastSuspend == s.lastSuspend)
            && (|s'.log| == |s.log| && StopTime(s, a).Some? ==> StopTime(s, a).value <= s.lastSuspend)
  {
    TimesTell(s);
  }

  lemma ScheduledStep(run: seq<State>, acts: seq<Action>, i: nat)
    requires Schedules(run, acts) && i < |acts|
    ensures Inv(run[i]) && Enabled(run[i], acts[i]) && run[i + 1] == Step(run[i], acts[i])
  {
    assert Takes(run, acts, i);
    ScheduledIsRun(run, acts);
    RunInv(run, i);
  }

  /** Quiet since it was told that the program goes on, the client is told nothing else. */
  lemma {:induction false} QuietStays(run: seq<State>, acts: seq<Action>, j: nat, i: nat)
    requires Schedules(run, acts) && j < i <= |acts| && Tells(run, acts, j) && QuietSince(run, acts, j, i)
    ensures EndsResumed(run[i]) && run[i].lastSuspend == LastSuspended(run[j].log)
    decreases i
  {
    ScheduledStep(run, acts, i - 1);
    QuietStep(run[i - 1], acts[i - 1]);
    if i - 1 > j {
      QuietStays(run, acts, j, i - 1);
    }
  }

  /** The resume notification that came last, and the quiet since. */
  lemma {:induction false} QuietSinceResume(run: seq<State>, acts: seq<Action>, i: nat) returns (j: nat)
    requires Schedules(run, acts) && i <= |acts| && EndsResumed(run[i])
    ensures j < i && Tells(run, acts, j) && QuietSince(run, acts, j, i)
    ensures run[i].lastSuspend == LastSuspended(run[j].log)
    decreases i
  {
    assert i > 0;
    ScheduledStep(run, acts, i - 1);
    QuietStep(run[i - 1], acts[i - 1]);
    if |run[i].log| > |run[i - 1].log| {
      j := i - 1;
    } else {
      j := QuietSinceResume(run, acts, i - 1);
    }
  }

  /** In every state of every run, also while threads are suspended: the client was told last that
      the program goes on if, and only if, a thread went on when it had been told last that one is
      suspended, and since then no stop and no pause check was later than that notification. */
  lemma ToldEarlyIff(run: seq<State>, acts: seq<Action>, i: nat)
    requires Schedules(run, acts) && i <= |acts|
    ensures EndsResumed(run[i]) <==> exists j | 0 <= j < i :: Tells(run, acts, j) && QuietSince(run, acts, j, i)
  {
    if EndsResumed(run[i]) {
      var j := QuietSinceResume(run, acts, i);
    }
    if j :| 0 <= j < i && Tells(run, acts, j) && QuietSince(run, acts, j, i) {
      QuietStays(run, acts, j, i);
    }
  }

  /** Every callback runs once, in order of registration, for the first resume notification
      that collects callbacks after it was registered; none is overdue once the lock is free. */
  lemma CallbacksRunOnceInOrder(run: seq<State>, i: nat)
    requires IsRun(run) && i < |run|
    ensures run[i].ran <= run[i].registered
    ensures run[i].phase.Free? ==>
              forall k | 0 <= k < |run[i].registered| ::
                (k < |run[i].ran| <==> run[i].registered[k].1 <= Resumes(run[i].log))
  {
    RunInv(run, i);
    var s := run[i];
    if s.phase.Free? {
      assert Numbered(Rest(s), s.swaps) == [];
      forall k | 0 <= k < |s.registered| ensures k < |s.ran| <==> s.registered[k].1 <= s.swaps {
        if k < |s.ran| {
          RanIsDue(run, i, k);
        } else {
          assert s.registered[k] == Numbered(s.callbacks, s.swaps + 1)[k - |s.ran|];
        }
      }
    }
  }

  /** What ran was due. */
  lemma {:induction false} RanIsDue(run: seq<State>, i: nat, k: nat)
    requires IsRun(run) && i < |run| && k < |run[i].ran|
    ensures run[i].ran[k].1 <= run[i].swaps
    decreases i
  {
    if i > 0 {
      assert NextAt(run, i);
      if k < |run[i - 1].ran| {
        RanIsDue(run, i - 1, k);
      }
    }
  }

  // ----- the source's class -----

  /** Runs the callbacks that a resume notification has collected. */
  function Drain(s: State): State
    requires s.phase.Draining?
    decreases |s.phase.rest|
  {
    if s.phase.rest == [] then Step(s, RunCallback) else Drain(Step(s, RunCallback))
  }

  lemma {:induction false} DrainIs(s: State)
    requires s.phase.Draining?
    ensures Drain(s) == s.(phase := Free, ran := s.ran + Numbered(s.phase.rest, s.swaps))
    decreases |s.phase.rest|
  {
    var r := s.phase.rest;
    if r == [] {
      assert s.ran + Numbered(r, s.swaps) == s.ran;
    } else {
      DrainIs(Step(s, RunCallback));
      assert s.ran + [(r[0], s.swaps)] + Numbered(r[1..], s.swaps) == s.ran + Numbered(r, s.swaps);
    }
  }

  lemma NumberedNext(callbacks: seq<nat>, k: nat, swap: nat)
    requires k < |callbacks|
    ensures Numbered(callbacks[..k + 1], swap) == Numbered(callbacks[..k], swap) + [(callbacks[k], swap)]
  {
  }

  /** The end of notify_thread_suspended, from taking the lock to releasing it. */
  function GoOn(s: State, thread: nat): State
    requires Enabled(s, Resume(thread))
  {
    var s1 := Step(s, Resume(thread));
    if s1.phase.Announced? then Drain(Step(s1, SwapCallbacks)) else s1
  }

  class ThreadsSuspendedSingleNotification {
    var nextRequestTime: int
    var suspendTimeRequest: int
    var lastSuspendNotificationTime: int
    var lastResumeNotificationTime: int
    var suspendedThreadIds: set<nat>
    var isPauseRequested: bool
    var resumedCallbacks: seq<nat>
    var sent: seq<Notification>
    ghost var pauseChecks: multiset<int>
    ghost var phase: Phase
    ghost var registered: seq<(nat, nat)>
    var ran: seq<(nat, nat)>
    var swaps: nat

    ghost function Now(): State
      reads this
    {
      State(nextRequestTime, suspendTimeRequest, lastSuspendNotificationTime, lastResumeNotificationTime,
            suspendedThreadIds, isPauseRequested, pauseChecks, resumedCallbacks, phase, sent, registered, ran, swaps)
    }

    constructor ()
      ensures Now() == INIT
    {
      nextRequestTime, suspendTimeRequest := 1, 0;
      lastSuspendNotificationTime, lastResumeNotificationTime := -1, -1;
      suspendedThreadIds, isPauseRequested, pauseChecks := {}, false, multiset{};
      resumedCallbacks, phase, sent, registered, ran, swaps := [], Free, [], [], [], 0;
    }

    method IncrementSuspendTime()
      requires Enabled(Now(), Action.IncrementSuspendTime)
      modifies this
      ensures Now() == Step(old(Now()), Action.IncrementSuspendTime)
    {
      suspendTimeRequest := nextRequestTime;
      nextRequestTime := nextRequestTime + 1;
    }

    /** Returns the time with which the delayed check is started. */
    method OnPause() returns (globalSuspendTime: int)
      requires Enabled(Now(), Action.OnPause)
      modifies this
      ensures Now() == Step(old(Now()), Action.OnPause) && globalSuspendTime == old(suspendTimeRequest)
    {
      isPauseRequested := true;
      globalSuspendTime := suspendTimeRequest;
      pauseChecks := pauseChecks + multiset{globalSuspendTime};
    }

    /** The delayed check picks any of the suspended threads. */
    method NotifyAfterTimeout(globalSuspendTime: int) returns (thread: nat)
      requires phase.Free? && globalSuspendTime in pauseChecks
      modifies this
      ensures Enabled(old(Now()), CheckPause(globalSuspendTime, thread))
      ensures Now() == Step(old(Now()), CheckPause(globalSuspendTime, thread))
    {
      thread := 0;
      pauseChecks := pauseChecks - multiset{globalSuspendTime};
      if suspendedThreadIds != {} {
        thread :| thread in suspendedThreadIds;
        if globalSuspendTime > lastSuspendNotificationTime {
          lastSuspendNotificationTime := globalSuspendTime;
          sent := sent + [Suspended(globalSuspendTime, thread)];
        }
      }
    }

    /** The first half of notify_thread_suspended. */
    method EnterSuspended(thread: nat, isThreadSuspend: bool)
      requires Enabled(Now(), Suspend(thread, isThreadSuspend))
      modifies this
      ensures Now() == Step(old(Now()), Suspend(thread, isThreadSuspend))
    {
      var pauseRequested := isPauseRequested;
      if pauseRequested {
        isPauseRequested := false;
      }
      suspendedThreadIds := suspendedThreadIds + {thread};
      if !isThreadSuspend || pauseRequested {
        if suspendTimeRequest > lastSuspendNotificationTime {
          lastSuspendNotificationTime := suspendTimeRequest;
          sent := sent + [Suspended(suspendTimeRequest, thread)];
        }
      }
    }

    method AddOnResumedCallback(callback: nat)
      modifies this
      ensures Now() == Step(old(Now()), Register(callback))
    {
      resumedCallbacks := resumedCallbacks + [callback];
      registered := registered + [(callback, swaps + 1)];
    }

    /** send_resume_notification, behind the command that announces it. */
    method RunResumedCallbacks()
      requires phase.Announced?
      modifies this
      ensures Now() == Drain(Step(old(Now()), SwapCallbacks))
    {
      var callbacks := resumedCallbacks;
      resumedCallbacks := [];
      swaps := swaps + 1;
      phase := Draining(callbacks);
      DrainIs(Now());
      ghost var before := ran;
      var k := 0;
      while k < |callbacks|
        invariant 0 <= k <= |callbacks|
        invariant ran == before + Numbered(callbacks[..k], swaps)
        modifies this`ran
      {
        ran := ran + [(callbacks[k], swaps)];
        NumberedNext(callbacks, k, swaps);
        k := k + 1;
      }
      assert callbacks[..k] == callbacks;
      phase := Free;
    }

    /** The second half of notify_thread_suspended. */
    method ExitSuspended(thread: nat)
      requires Enabled(Now(), Resume(thread))
      modifies this
      ensures Now() == GoOn(old(Now()), thread)
    {
      suspendedThreadIds := suspendedThreadIds - {thread};
      if lastResumeNotificationTime < lastSuspendNotificationTime {
        lastResumeNotificationTime := lastSuspendNotificationTime;
        sent := sent + [Resumed(lastResumeNotificationTime, thread)];
        phase := Announced;
        RunResumedCallbacks();
      }
    }
  }
}
