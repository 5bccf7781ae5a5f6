/**
 How pydevd tells its client which threads exist: the table of running threads, the kill
 marks, and the pass that reconciles the table with the threads that are alive.

 A notification is decided under `_lock_running_thread_ids`. The reconciliation pass also
 sends it there (`direct`); the other callers send it after they have released the lock, so
 the order on the wire can differ from the order of the decisions.
 */
module Threads {
  import opened Options

  /** A thread object. Its id does not change, but another object may get the same id later. */
  datatype Thread = Thread(number: nat, id: string)

  datatype Message = Created(thread: Thread) | Killed(thread: Thread)

  /** `decided` lists the notifications in the order of their decisions; each comes with the
      number of the period, counted by set_enable_thread_notifications(True). */
  datatype State = State(
    writer: bool,
    enabled: bool,
    running: map<string, Thread>,
    marked: set<Thread>,
    period: nat,
    decided: seq<(Message, nat)>,
    pending: multiset<Message>,
    wire: seq<Message>)

  const INIT := State(false, false, map[], {}, 0, [], multiset{}, [])

  datatype Action =
    | StartWriter
    | SetEnabled(enable: bool)
    | NotifyCreated(thread: Thread, direct: bool)
    | NotifyNotAlive(id: string, direct: bool)
    | Send(message: Message)

  predicate Enabled(s: State, a: Action) {
    a.Send? ==> a.message in s.pending
  }

  function Decide(s: State, m: Message, direct: bool): State {
    s.(decided := s.decided + [(m, s.period)],
       wire := if direct then s.wire + [m] else s.wire,
       pending := if direct then s.pending else s.pending + multiset{m})
  }

  function Create(s: State, t: Thread, direct: bool): State {
    if !s.writer || !s.enabled || t.id in s.running || t in s.marked then s
    else Decide(s.(running := s.running[t.id := t]), Created(t), direct)
  }

  function Kill(s: State, id: string, direct: bool): State {
    if !s.writer || !s.enabled || id !in s.running then s
    else
      var t := s.running[id];
      Decide(s.(running := s.running - {id}, marked := s.marked + {t}), Killed(t), direct)
  }

  function SetEnable(s: State, enable: bool): State {
    if s.enabled == enable then s
    else if enable then s.(enabled := true, running := map[], period := s.period + 1)
    else s.(enabled := false)
  }

  function Step(s: State, a: Action): State
    requires Enabled(s, a)
  {
    match a
    case StartWriter => s.(writer := true)
    case SetEnabled(enable) => SetEnable(s, enable)
    case NotifyCreated(t, direct) => Create(s, t, direct)
    case NotifyNotAlive(id, direct) => Kill(s, id, direct)
    case Send(m) => s.(pending := s.pending - multiset{m}, wire := s.wire + [m])
  }

  ghost predicate Next(s: State, s': State) {
    exists a: Action :: Enabled(s, a) && s' == Step(s, a)
  }

  ghost predicate NextAt(run: seq<State>, i: nat)
    requires 0 < i < |run|
  {
    Next(run[i - 1], run[i])
  }

  ghost predicate IsRun(run: seq<State>) {
    && run != []
    && run[0] == INIT
    && forall i | 0 < i < |run| :: NextAt(run, i)
  }

  // ----- the invariant -----

  /** The table holds threads announced in this period, under their ids, that are not marked. */
  ghost predicate TableOk(s: State) {
    forall id <- s.running ::
      s.running[id].id == id && s.running[id] !in s.marked && (Created(s.running[id]), s.period) in s.decided
  }

  /** A thread is marked exactly when it was reported killed. */
  ghost predicate MarksOk(s: State) {
    && (forall d <- s.decided :: d.1 <= s.period)
    && (forall d <- s.decided | d.0.Killed? :: d.0.thread in s.marked)
    && (forall d <- s.decided | d.0.Created? && d.1 == s.period ::
          d.0.thread in s.marked || (d.0.thread.id in s.running && s.running[d.0.thread.id] == d.0.thread))
  }

  /** Within a period a thread is announced once; it is killed once, in the period in which it
      was announced and after that; and it is not announced again after it was killed. */
  ghost predicate DecisionsOk(decided: seq<(Message, nat)>) {
    && (forall i, j | 0 <= i < j < |decided| :: decided[i] != decided[j])
    && (forall i, j | 0 <= i < j < |decided| && decided[i].0.Killed? :: decided[j].0.thread != decided[i].0.thread)
    && (forall j | 0 <= j < |decided| && decided[j].0.Killed? ::
          exists i | 0 <= i < j :: decided[i] == (Created(decided[j].0.thread), decided[j].1))
  }

  function Messages(decided: seq<(Message, nat)>): multiset<Message> {
    if decided == [] then multiset{}
    else Messages(decided[..|decided| - 1]) + multiset{decided[|decided| - 1].0}
  }

  /** Every decision leads to one message. */
  ghost predicate SentOk(s: State) {
    multiset(s.wire) + s.pending == Messages(s.decided)
  }

  ghost predicate Inv(s: State) {
    TableOk(s) && MarksOk(s) && DecisionsOk(s.decided) && SentOk(s)
  }

  lemma DecisionsAppend(decided: seq<(Message, nat)>, d: (Message, nat))
    requires DecisionsOk(decided) && d !in decided
    requires forall i | 0 <= i < |decided| && decided[i].0.Killed? :: decided[i].0.thread != d.0.thread
    requires d.0.Killed? ==> (Created(d.0.thread), d.1) in decided
    ensures DecisionsOk(decided + [d])
  {
    var all := decided + [d];
    forall j | 0 <= j < |all| && all[j].0.Killed?
      ensures exists i | 0 <= i < j :: all[i] == (Created(all[j].0.thread), all[j].1)
    {
      if j < |decided| {
        var i :| 0 <= i < j && decided[i] == (Created(decided[j].0.thread), decided[j].1);
        assert all[i] == decided[i];
      } else {
        var i :| 0 <= i < |decided| && decided[i] == (Created(d.0.thread), d.1);
        assert all[i] == decided[i];
      }
    }
  }

  lemma DecideSent(s: State, m: Message, direct: bool)
    requires SentOk(s)
    ensures SentOk(Decide(s, m, direct))
  {
    var d := (m, s.period);
    assert (s.decided + [d])[..|s.decided|] == s.decided;
  }

  predicate Creates(s: State, t: Thread) {
    s.writer && s.enabled && t.id !in s.running && t !in s.marked
  }

  lemma CreateTable(s: State, t: Thread, direct: bool)
    requires TableOk(s) && MarksOk(s) && Creates(s, t)
    ensures TableOk(Create(s, t, direct)) && MarksOk(Create(s, t, direct))
  {
    assert forall x :: x in Create(s, t, direct).decided <==> x in s.decided || x == (Created(t), s.period);
  }

  lemma CreateDecisions(s: State, t: Thread, direct: bool)
    requires MarksOk(s) && DecisionsOk(s.decided) && Creates(s, t)
    ensures DecisionsOk(Create(s, t, direct).decided)
  {
    var d := (Created(t), s.period);
    assert d !in s.decided;
    forall i | 0 <= i < |s.decided| && s.decided[i].0.Killed? ensures s.decided[i].0.thread != t {
      assert s.decided[i] in s.decided;
    }
    DecisionsAppend(s.decided, d);
  }

  lemma CreateInv(s: State, t: Thread, direct: bool)
    requires Inv(s)
    ensures Inv(Create(s, t, direct))
  {
    if Creates(s, t) {
      CreateTable(s, t, direct);
      CreateDecisions(s, t, direct);
      DecideSent(s.(running := s.running[t.id := t]), Created(t), direct);
    }
  }

  predicate Kills(s: State, id: string) {
    s.writer && s.enabled && id in s.running
  }

  lemma KillTable(s: State, id: string, direct: bool)
    requires TableOk(s) && MarksOk(s) && Kills(s, id)
    ensures TableOk(Kill(s, id, direct)) && MarksOk(Kill(s, id, direct))
  {
    var t := s.running[id];
    assert forall x :: x in Kill(s, id, direct).decided <==> x in s.decided || x == (Killed(t), s.period);
    forall other <- Kill(s, id, direct).running ensures s.running[other] != t {
      assert s.running[other].id == other && t.id == id;
    }
  }

  lemma KillDecisions(s: State, id: string, direct: bool)
    requires TableOk(s) && MarksOk(s) && DecisionsOk(s.decided) && Kills(s, id)
    ensures DecisionsOk(Kill(s, id, direct).decided)
  {
    var t := s.running[id];
    var d := (Killed(t), s.period);
    assert d !in s.decided;
    forall i | 0 <= i < |s.decided| && s.decided[i].0.Killed? ensures s.decided[i].0.thread != t {
      assert s.decided[i] in s.decided;
    }
    DecisionsAppend(s.decided, d);
  }

  lemma KillInv(s: State, id: string, direct: bool)
    requires Inv(s)
    ensures Inv(Kill(s, id, direct))
  {
    if Kills(s, id) {
      var t := s.running[id];
      KillTable(s, id, direct);
      KillDecisions(s, id, direct);
      DecideSent(s.(running := s.running - {id}, marked := s.marked + {t}), Killed(t), direct);
    }
  }

  lemma StepInv(s: State, a: Action)
    requires Inv(s) && Enabled(s, a)
    ensures Inv(Step(s, a))
  {
    match a
    case NotifyCreated(t, direct) => CreateInv(s, t, direct);
    case NotifyNotAlive(id, direct) => KillInv(s, id, direct);
    case _ =>
  }

  lemma StepOf(run: seq<State>, j: nat) returns (a: Action)
    requires IsRun(run) && j + 1 < |run|
    ensures Enabled(run[j], a) && run[j + 1] == Step(run[j], a)
  {
    assert NextAt(run, j + 1);
    a :| Enabled(run[j], a) && run[j + 1] == Step(run[j], a);
  }

  lemma {:induction false} RunInv(run: seq<State>, i: nat)
    requires IsRun(run) && i < |run|
    ensures Inv(run[i])
  {
    if i > 0 {
      RunInv(run, i - 1);
      var a := StepOf(run, i - 1);
      StepInv(run[i - 1], a);
    }
  }

  // ----- over every run -----

  /** Within one enable period a thread is announced at most once; over the whole run it is
      killed at most once, only after it was announced in that period, and not announced again
      after it was killed. And each decision leads to one message. */
  lemma AnnouncedOnceKilledOnce(run: seq<State>, i: nat)
    requires IsRun(run) && i < |run|
    ensures DecisionsOk(run[i].decided)
    ensures multiset(run[i].wire) + run[i].pending == Messages(run[i].decided)
  {
    RunInv(run, i);
  }

  lemma Extend(run: seq<State>, a: Action) returns (longer: seq<State>)
    requires IsRun(run) && Enabled(run[|run| - 1], a)
    ensures IsRun(longer) && run <= longer && longer[|longer| - 1] == Step(run[|run| - 1], a)
  {
    var s := run[|run| - 1];
    assert Enabled(s, a) && Step(s, a) == Step(s, a);
    assert Next(s, Step(s, a));
    longer := run + [Step(s, a)];
    forall i | 0 < i < |longer| ensures NextAt(longer, i) {
      if i < |run| {
        assert NextAt(run, i);
      }
    }
  }

  /** Both notifications are decided and neither is sent. */
  lemma BothDecided(t: Thread) returns (run: seq<State>)
    ensures IsRun(run)
    ensures run[|run| - 1] ==
            State(true, true, map[], {t}, 1, [(Created(t), 1), (Killed(t), 1)], multiset{Created(t), Killed(t)}, [])
  {
    run := Extend([INIT], StartWriter);
    run := Extend(run, SetEnabled(true));
    run := Extend(run, NotifyCreated(t, false));
    assert run[|run| - 1] == State(true, true, map[t.id := t], {}, 1, [(Created(t), 1)], multiset{Created(t)}, []);
    run := Extend(run, NotifyNotAlive(t.id, false));
  }

  /** On the wire a thread may be reported killed before it is reported created: both callers
      send after they have released the lock. */
  lemma MessagesMayCross(t: Thread) returns (run: seq<State>)
    ensures IsRun(run) && run[|run| - 1].wire == [Killed(t), Created(t)]
  {
    run := BothDecided(t);
    run := Extend(run, Send(Killed(t)));
    run := Extend(run, Send(Created(t)));
  }

  /** Action `a` puts Killed(t) on the wire: it is sent, or decided and sent at once. */
  predicate PutsKilled(s: State, a: Action, t: Thread) {
    a == Send(Killed(t)) || (a.NotifyNotAlive? && a.direct && Kills(s, a.id) && s.running[a.id] == t)
  }

  /** In every reachable state: Killed(t) goes out behind every Created(t) that was decided exactly
      if no Created(t) is still to be sent in the step that puts it on the wire. */
  lemma KilledGoesLastIff(run: seq<State>, i: nat, a: Action, t: Thread)
    requires IsRun(run) && i < |run| && Enabled(run[i], a) && PutsKilled(run[i], a, t)
    ensures var s' := Step(run[i], a);
            && s'.wire == run[i].wire + [Killed(t)]
            && (multiset(s'.wire)[Created(t)] == Messages(s'.decided)[Created(t)] <==> Created(t) !in run[i].pending)
  {
    RunInv(run, i);
    StepInv(run[i], a);
    var s' := Step(run[i], a);
    assert (multiset(s'.wire) + s'.pending)[Created(t)] == Messages(s'.decided)[Created(t)];
    assert s'.pending[Created(t)] == run[i].pending[Created(t)];
  }

  ghost predicate Grows(s: State, s': State) {
    s.wire <= s'.wire && s.decided <= s'.decided
  }

  lemma {:induction false} RunGrows(run: seq<State>, j: nat, i: nat)
    requires IsRun(run) && j <= i < |run|
    ensures Grows(run[j], run[i])
    decreases i - j
  {
    if j < i {
      RunGrows(run, j, i - 1);
      var a := StepOf(run, i - 1);
      StepGrows(run[i - 1], a);
    }
  }

  lemma StepGrows(s: State, a: Action)
    requires Enabled(s, a)
    ensures Grows(s, Step(s, a))
  {
  }

  lemma {:induction false} MessagesOnly(decided: seq<(Message, nat)>, n: nat, m: Message)
    requires n <= |decided| && forall k | n <= k < |decided| :: decided[k].0 != m
    ensures Messages(decided)[m] == Messages(decided[..n])[m]
    decreases |decided|
  {
    if n < |decided| {
      var before := decided[..|decided| - 1];
      assert before[..n] == decided[..n];
      MessagesOnly(before, n, m);
    } else {
      assert decided[..n] == decided;
    }
  }

  lemma {:induction false} MessagesHave(decided: seq<(Message, nat)>, m: Message) returns (k: nat)
    requires m in Messages(decided)
    ensures k < |decided| && decided[k].0 == m
    decreases |decided|
  {
    var last := |decided| - 1;
    if decided[last].0 == m {
      k := last;
    } else {
      k := MessagesHave(decided[..last], m);
    }
  }

  /** Once Killed(t) is decided nothing else is decided about t. */
  lemma NoMoreCreated(run: seq<State>, j: nat, i: nat, t: Thread)
    requires IsRun(run) && j <= i < |run| && Killed(t) in Messages(run[j].decided)
    ensures Messages(run[i].decided)[Created(t)] == Messages(run[j].decided)[Created(t)]
  {
    RunInv(run, i);
    RunGrows(run, j, i);
    var d := run[i].decided;
    var k := MessagesHave(run[j].decided, Killed(t));
    assert d[k] == run[j].decided[k];
    assert d[..|run[j].decided|] == run[j].decided;
    MessagesOnly(d, |run[j].decided|, Created(t));
  }

  /** Killed(t) goes out once. */
  lemma KilledOnce(run: seq<State>, i: nat, t: Thread, p: nat, q: nat)
    requires IsRun(run) && i < |run| && p < q < |run[i].wire|
    ensures !(run[i].wire[p] == Killed(t) && run[i].wire[q] == Killed(t))
  {
    RunInv(run, i);
    var w := run[i].wire;
    if w[p] == Killed(t) && w[q] == Killed(t) {
      assert w == w[..p] + [w[p]] + w[p + 1..q] + [w[q]] + w[q + 1..];
      assert multiset(w)[Killed(t)] >= 2;
      assert Messages(run[i].decided)[Killed(t)] >= 2;
      KilledDecidedOnce(run[i].decided, t);
      assert false;
    }
  }

  lemma {:induction false} KilledDecidedOnce(decided: seq<(Message, nat)>, t: Thread)
    requires DecisionsOk(decided)
    ensures Messages(decided)[Killed(t)] <= 1
    decreases |decided|
  {
    if decided != [] {
      var last := |decided| - 1;
      DecisionsPrefix(decided, last);
      KilledDecidedOnce(decided[..last], t);
      if decided[last].0 == Killed(t) && Killed(t) in Messages(decided[..last]) {
        var k := MessagesHave(decided[..last], Killed(t));
        assert false;
      }
    }
  }

  lemma DecisionsPrefix(decided: seq<(Message, nat)>, n: nat)
    requires DecisionsOk(decided) && n <= |decided|
    ensures DecisionsOk(decided[..n])
  {
    var d := decided[..n];
    forall j | 0 <= j < |d| && d[j].0.Killed?
      ensures exists i | 0 <= i < j :: d[i] == (Created(d[j].0.thread), d[j].1) {
      var i :| 0 <= i < j && decided[i] == (Created(decided[j].0.thread), decided[j].1);
      assert d[i] == decided[i];
    }
  }

  /** Created(t) is on the wire behind Killed(t). */
  predicate Crossed(wire: seq<Message>, t: Thread) {
    exists p, q | 0 <= p < q < |wire| :: wire[p] == Killed(t) && wire[q] == Created(t)
  }

  /** In every run, once step `j` has put Killed(t) on the wire: a Created(t) comes behind it if,
      and only if, one that was still to be sent at that step has been sent since. */
  lemma CrossedIff(run: seq<State>, j: nat, i: nat, t: Thread)
    requires IsRun(run) && j < i < |run| && run[j + 1].wire == run[j].wire + [Killed(t)]
    ensures Crossed(run[i].wire, t) <==> run[i].pending[Created(t)] < run[j].pending[Created(t)]
  {
    var w, n := run[i].wire, |run[j].wire|;
    RunGrows(run, j + 1, i);
    assert w[n] == run[j + 1].wire[n] == Killed(t);
    CountBehind(run, j, i, t);
    var behind := w[n + 1..];
    if Created(t) in behind {
      var k :| 0 <= k < |behind| && behind[k] == Created(t);
      assert w[n + 1 + k] == Created(t);
    }
    if p, q :| 0 <= p < q < |w| && w[p] == Killed(t) && w[q] == Created(t) {
      if p < n { KilledOnce(run, i, t, p, n); } else if n < p { KilledOnce(run, i, t, n, p); }
      assert w[q] == behind[q - n - 1];
    }
  }

  lemma CountBehind(run: seq<State>, j: nat, i: nat, t: Thread)
    requires IsRun(run) && j < i < |run| && run[j + 1].wire == run[j].wire + [Killed(t)]
    ensures |run[j].wire| + 1 <= |run[i].wire|
    ensures multiset(run[i].wire[|run[j].wire| + 1..])[Created(t)] + run[i].pending[Created(t)] ==
            run[j].pending[Created(t)]
  {
    assert run[j + 1].wire[|run[j].wire|] == Killed(t);
    SentCount(run, j + 1, Killed(t));
    CreatedIsSent(run, j + 1, i, t);
    KilledLeaves(run, j, t);
  }

  lemma SentCount(run: seq<State>, i: nat, m: Message)
    requires IsRun(run) && i < |run|
    ensures multiset(run[i].wire)[m] + run[i].pending[m] == Messages(run[i].decided)[m]
  {
    RunInv(run, i);
    assert (multiset(run[i].wire) + run[i].pending)[m] == Messages(run[i].decided)[m];
  }

  lemma CountSplit(w: seq<Message>, n: nat, m: Message)
    requires n <= |w|
    ensures multiset(w)[m] == multiset(w[..n])[m] + multiset(w[n..])[m]
  {
    assert w == w[..n] + w[n..];
  }

  /** The step that puts Killed(t) on the wire leaves what is pending about t's creation. */
  lemma KilledLeaves(run: seq<State>, j: nat, t: Thread)
    requires IsRun(run) && j + 1 < |run| && run[j + 1].wire == run[j].wire + [Killed(t)]
    ensures run[j + 1].pending[Created(t)] == run[j].pending[Created(t)]
  {
    var a := StepOf(run, j);
    assert run[j + 1].wire[|run[j].wire|] == Killed(t);
  }

  /** Step `j` decides Killed(t). */
  predicate DecidesKilled(run: seq<State>, j: nat, t: Thread)
    requires j + 1 < |run|
  {
    run[j + 1].decided == run[j].decided + [(Killed(t), run[j].period)]
  }

  lemma {:induction false} KilledWasDecided(run: seq<State>, i: nat, t: Thread) returns (j: nat)
    requires IsRun(run) && i < |run| && Killed(t) in Messages(run[i].decided)
    ensures j < i && DecidesKilled(run, j, t)
  {
    assert i > 0;
    if Killed(t) in Messages(run[i - 1].decided) {
      j := KilledWasDecided(run, i - 1, t);
    } else {
      j := i - 1;
      var a := StepOf(run, j);
      NewlyDecided(run[j], a, t);
    }
  }

  lemma NewlyDecided(s: State, a: Action, t: Thread)
    requires Enabled(s, a) && Killed(t) in Messages(Step(s, a).decided) && Killed(t) !in Messages(s.decided)
    ensures Step(s, a).decided == s.decided + [(Killed(t), s.period)]
  {
    var d := Step(s, a).decided;
    assert |d| > |s.decided| ==> d[..|s.decided|] == s.decided;
  }

  /** The step that decides Killed(t) sends at most that. */
  lemma KillingStep(s: State, a: Action, t: Thread)
    requires Enabled(s, a) && Step(s, a).decided == s.decided + [(Killed(t), s.period)]
    ensures var s' := Step(s, a);
            && s'.pending[Created(t)] == s.pending[Created(t)]
            && (s'.wire == s.wire + [Killed(t)] || (s'.wire == s.wire && Killed(t) in s'.pending))
            && Messages(s'.decided) == Messages(s.decided) + multiset{Killed(t)}
  {
    var d := Step(s, a).decided;
    assert d[|s.decided|] == (Killed(t), s.period);
    assert d[..|s.decided|] == s.decided;
  }

  lemma DecidingStep(run: seq<State>, j: nat, t: Thread)
    requires IsRun(run) && j + 1 < |run| && DecidesKilled(run, j, t)
    ensures run[j + 1].pending[Created(t)] == run[j].pending[Created(t)]
    ensures run[j + 1].wire == run[j].wire + [Killed(t)]
            || (run[j + 1].wire == run[j].wire && Killed(t) in run[j + 1].pending)
    ensures Killed(t) !in run[j].wire && Killed(t) in Messages(run[j + 1].decided)
  {
    var a := StepOf(run, j);
    KillingStep(run[j], a, t);
    RunInv(run, j + 1);
    KilledDecidedOnce(run[j + 1].decided, t);
    SentCount(run, j, Killed(t));
  }

  /** Once Killed(t) is decided, the wire only gets those Created(t) that are still to be sent. */
  lemma CreatedIsSent(run: seq<State>, j: nat, i: nat, t: Thread)
    requires IsRun(run) && j <= i < |run| && Killed(t) in Messages(run[j].decided)
    ensures run[j].wire <= run[i].wire
    ensures multiset(run[i].wire[|run[j].wire|..])[Created(t)] + run[i].pending[Created(t)] ==
            run[j].pending[Created(t)]
  {
    var w, n := run[i].wire, |run[j].wire|;
    RunGrows(run, j, i);
    NoMoreCreated(run, j, i, t);
    SentCount(run, j, Created(t));
    SentCount(run, i, Created(t));
    CountSplit(w, n, Created(t));
    assert w[..n] == run[j].wire;
  }

  lemma NoneBehind(w: seq<Message>, k: nat, n: nat, t: Thread)
    requires k <= n <= |w| && n <= k + 1 && Killed(t) !in w[..k] && Created(t) !in w[n..]
    ensures !Crossed(w, t)
  {
    assert forall p | 0 <= p < k :: w[p] == w[..k][p];
    forall p, q | 0 <= p < q < |w| && w[p] == Killed(t) ensures w[q] != Created(t) {
      assert w[q] == w[n..][q - n];
    }
  }

  /** With no Created(t) still to be sent when Killed(t) is decided, none comes behind it. */
  lemma NeverBehind(run: seq<State>, j: nat, i: nat, t: Thread)
    requires IsRun(run) && j < i < |run| && DecidesKilled(run, j, t) && Created(t) !in run[j].pending
    ensures !Crossed(run[i].wire, t)
  {
    DecidingStep(run, j, t);
    CreatedIsSent(run, j + 1, i, t);
    var w, k, n := run[i].wire, |run[j].wire|, |run[j + 1].wire|;
    assert w[..k] == run[j + 1].wire[..k] == run[j].wire;
    assert Created(t) !in multiset(w[n..]);
    NoneBehind(w, k, n, t);
  }

  /** A run in which no Created(t) is still to be sent whenever Killed(t) is decided never has one
      behind Killed(t). */
  lemma PromptNeverCrosses(run: seq<State>, i: nat, t: Thread)
    requires IsRun(run) && i < |run|
    requires forall j | 0 <= j < i && DecidesKilled(run, j, t) :: Created(t) !in run[j].pending
    ensures !Crossed(run[i].wire, t)
  {
    if Killed(t) in run[i].wire {
      SentCount(run, i, Killed(t));
      var j := KilledWasDecided(run, i, t);
      NeverBehind(run, j, i, t);
    }
  }

  /** The run can go on so that Created(t) comes behind Killed(t). */
  ghost predicate CanCross(run: seq<State>, t: Thread) {
    exists longer: seq<State> :: IsRun(longer) && run <= longer && Crossed(longer[|longer| - 1].wire, t)
  }

  lemma SendBoth(run: seq<State>, t: Thread) returns (longer: seq<State>)
    requires IsRun(run) && Created(t) in run[|run| - 1].pending
    requires var s := run[|run| - 1]; Killed(t) in s.pending || (s.wire != [] && s.wire[|s.wire| - 1] == Killed(t))
    ensures IsRun(longer) && run <= longer && Crossed(longer[|longer| - 1].wire, t)
  {
    longer := run;
    if Killed(t) in run[|run| - 1].pending {
      longer := Extend(longer, Send(Killed(t)));
    }
    var n := |longer[|longer| - 1].wire|;
    longer := Extend(longer, Send(Created(t)));
    var w := longer[|longer| - 1].wire;
    assert w[n - 1] == Killed(t) && w[n] == Created(t);
  }

  /** Whether they can cross is settled when Killed(t) is decided. */
  lemma CanCrossIff(run: seq<State>, j: nat, t: Thread)
    requires IsRun(run) && |run| == j + 2 && DecidesKilled(run, j, t)
    ensures CanCross(run, t) <==> Created(t) in run[j].pending
  {
    DecidingStep(run, j, t);
    if Created(t) in run[j].pending {
      var longer := SendBoth(run, t);
    }
    if longer: seq<State> :| IsRun(longer) && run <= longer && Crossed(longer[|longer| - 1].wire, t) {
      assert longer[j] == run[j] && longer[j + 1] == run[j + 1];
      if Created(t) !in run[j].pending {
        NeverBehind(longer, j, |longer| - 1, t);
      }
    }
  }

  /** What was decided, as messages in order. */
  function InOrder(decided: seq<(Message, nat)>): seq<Message> {
    seq(|decided|, i requires 0 <= i < |decided| => decided[i].0)
  }

  /** A run in which nothing is decided while a message is still to be sent. */
  ghost predicate IsPromptRun(run: seq<State>) {
    && IsRun(run)
    && forall i | 0 < i < |run| && run[i].decided != run[i - 1].decided :: run[i - 1].pending == multiset{}
  }

  ghost predicate OrderOk(s: State) {
    if s.pending == multiset{} then s.wire == InOrder(s.decided)
    else exists m: Message :: s.pending == multiset{m} && s.wire + [m] == InOrder(s.decided)
  }

  lemma DecideOrder(s: State, m: Message, direct: bool)
    requires OrderOk(s) && s.pending == multiset{}
    ensures OrderOk(Decide(s, m, direct))
  {
    assert InOrder(s.decided + [(m, s.period)]) == InOrder(s.decided) + [m];
    assert multiset{} + multiset{m} == multiset{m};
    if !direct {
      var s' := Decide(s, m, direct);
      assert s'.pending == multiset{m} && s'.wire + [m] == InOrder(s'.decided);
    }
  }

  lemma SendOrder(s: State, m: Message)
    requires OrderOk(s) && m in s.pending
    ensures OrderOk(Step(s, Send(m)))
  {
    var n: Message :| s.pending == multiset{n} && s.wire + [n] == InOrder(s.decided);
    assert m == n;
    assert s.pending - multiset{m} == multiset{};
  }

  lemma StepOrder(s: State, a: Action)
    requires OrderOk(s) && Enabled(s, a)
    requires Step(s, a).decided != s.decided ==> s.pending == multiset{}
    ensures OrderOk(Step(s, a))
  {
    match a
    case NotifyCreated(t, direct) =>
      if Creates(s, t) { DecideOrder(s.(running := s.running[t.id := t]), Created(t), direct); }
    case NotifyNotAlive(id, direct) =>
      if Kills(s, id) {
        DecideOrder(s.(running := s.running - {id}, marked := s.marked + {s.running[id]}), Killed(s.running[id]),
                    direct);
      }
    case Send(m) => SendOrder(s, m);
    case _ =>
  }

  /** When every message is sent before the next decision, the wire has the order of the
      decisions, and so a thread is reported killed only after it is reported created. */
  lemma {:induction false} PromptIsInOrder(run: seq<State>, i: nat)
    requires IsPromptRun(run) && i < |run|
    ensures OrderOk(run[i])
    ensures run[i].wire <= InOrder(run[i].decided)
  {
    if i > 0 {
      PromptIsInOrder(run, i - 1);
      var a := StepOf(run, i - 1);
      StepOrder(run[i - 1], a);
    }
  }

  // ----- the reconciliation pass -----

  /** A thread as the pass finds it. */
  datatype View = View(thread: Thread, daemon: bool, debuggerThread: bool, alive: bool)

  predicate Program(v: View) {
    !v.daemon && !v.debuggerThread && v.alive
  }

  function Alive(views: seq<View>): set<Thread> {
    set v <- views | Program(v) :: v.thread
  }

  function AliveIds(views: seq<View>): set<string> {
    set v <- views | Program(v) :: v.thread.id
  }

  function CreateAll(s: State, views: seq<View>): State
    decreases |views|
  {
    if views == [] then s
    else CreateAll(if Program(views[0]) then Create(s, views[0].thread, true) else s, views[1..])
  }

  function KillAll(s: State, ids: seq<string>): State
    decreases |ids|
  {
    if ids == [] then s else KillAll(Kill(s, ids[0], true), ids[1..])
  }

  /** The table entry of an id belongs to the live thread with that id: the table keeps its
      threads from being reclaimed, and so their ids from being given away. */
  predicate IdsTellThreads(running: map<string, Thread>, views: seq<View>) {
    && (forall v, w | v in views && w in views && Program(v) && Program(w) && v.thread.id == w.thread.id ::
        v.thread == w.thread)
    && (forall v <- views | Program(v) && v.thread.id in running :: running[v.thread.id] == v.thread)
  }

  /** Whether `id` belongs to a live program thread that is not marked killed. */
  predicate Wanted(views: seq<View>, marked: set<Thread>, id: string) {
    exists v <- views :: Program(v) && v.thread.id == id && v.thread !in marked
  }

  lemma {:induction false} CreateAllIs(s: State, views: seq<View>)
    requires s.writer && s.enabled && IdsTellThreads(s.running, views)
    ensures var s' := CreateAll(s, views);
            && s'.writer && s'.enabled && s'.marked == s.marked
            && (forall id :: id in s'.running <==> id in s.running || Wanted(views, s.marked, id))
            && (forall id <- s.running :: s'.running[id] == s.running[id])
            && IdsTellThreads(s'.running, views)
    decreases |views|
  {
    if views != [] {
      var v := views[0];
      var s1 := if Program(v) then Create(s, v.thread, true) else s;
      assert forall w :: w in views <==> w == v || w in views[1..];
      CreateAllIs(s1, views[1..]);
      WantedSplit(views, s.marked);
    }
  }

  lemma WantedSplit(views: seq<View>, marked: set<Thread>)
    requires views != []
    ensures forall id :: Wanted(views, marked, id) <==>
              (Program(views[0]) && views[0].thread.id == id && views[0].thread !in marked)
                || Wanted(views[1..], marked, id)
  {
    assert forall w :: w in views <==> w == views[0] || w in views[1..];
  }

  lemma {:induction false} KillAllIs(s: State, ids: seq<string>)
    requires s.writer && s.enabled
    ensures var s' := KillAll(s, ids);
            && (forall id :: id in s'.running <==> id in s.running && id !in ids)
            && (forall id <- s'.running :: s'.running[id] == s.running[id])
    decreases |ids|
  {
    if ids != [] {
      assert forall id :: id in ids <==> id == ids[0] || id in ids[1..];
      KillAllIs(Kill(s, ids[0], true), ids[1..]);
    }
  }

  /** After the pass the table holds exactly the live program threads that are not marked
      killed, each under its id. */
  lemma TableIsReconciled(s: State, views: seq<View>, dead: seq<string>)
    requires Inv(s) && s.writer && s.enabled && IdsTellThreads(s.running, views)
    requires forall id :: id in dead <==> id in CreateAll(s, views).running && id !in AliveIds(views)
    ensures var s' := KillAll(CreateAll(s, views), dead);
            && (forall id <- s'.running ::
                s'.running[id].id == id && s'.running[id] in Alive(views) && s'.running[id] !in s.marked)
            && (forall t <- Alive(views) | t !in s.marked :: t.id in s'.running && s'.running[t.id] == t)
  {
    var s1 := CreateAll(s, views);
    CreateAllIs(s, views);
    KillAllIs(s1, dead);
    var s' := KillAll(s1, dead);
    forall id <- s'.running
      ensures s'.running[id].id == id && s'.running[id] in Alive(views) && s'.running[id] !in s.marked
    {
      assert id in AliveIds(views);
      var v :| v in views && Program(v) && v.thread.id == id;
      assert s1.running[id] == v.thread;
      if id !in s.running {
        assert Wanted(views, s.marked, id);
      }
    }
    forall t <- Alive(views) | t !in s.marked ensures t.id in s'.running && s'.running[t.id] == t {
      var v :| v in views && Program(v) && v.thread == t;
      assert Wanted(views, s.marked, t.id);
      assert t.id in AliveIds(views);
    }
  }

  /** Without a writer, or with notifications off, the pass changes nothing. */
  lemma {:induction false} NothingIsReconciled(s: State, views: seq<View>, dead: seq<string>)
    requires !s.writer || !s.enabled
    ensures KillAll(CreateAll(s, views), dead) == s
    decreases |views| + |dead|
  {
    if views != [] {
      NothingIsReconciled(s, views[1..], dead);
    } else if dead != [] {
      NothingIsReconciled(s, [], dead[1..]);
    }
  }

  class PyDB {
    var writer: bool
    var enableThreadNotifications: bool
    var runningThreadIds: map<string, Thread>
    var notifyKill: set<Thread>     // the threads whose pydev_notify_kill is set
    var sent: seq<Message>
    ghost var period: nat
    ghost var decided: seq<(Message, nat)>
    ghost var pending: multiset<Message>

    ghost function Now(): State
      reads this
    {
      State(writer, enableThreadNotifications, runningThreadIds, notifyKill, period, decided, pending, sent)
    }

    /** notify_thread_created. With useLock the message is returned, to be sent later. */
    method NotifyThreadCreated(thread: Thread, useLock: bool) returns (later: Option<Message>)
      modifies this
      ensures Now() == Create(old(Now()), thread, !useLock)
    {
      later := None;
      if !writer {
        return;
      }
      if !enableThreadNotifications {
        return;
      }
      if thread.id in runningThreadIds {
        return;
      }
      if thread in notifyKill {
        return;
      }
      runningThreadIds := runningThreadIds[thread.id := thread];
      later := Queue(Created(thread), useLock);
    }

    /** writer.add_command, at once or after the lock is released. */
    method Queue(m: Message, useLock: bool) returns (later: Option<Message>)
      modifies this
      ensures Now() == Decide(old(Now()), m, !useLock)
    {
      decided := decided + [(m, period)];
      if useLock {
        pending := pending + multiset{m};
        later := Some(m);
      } else {
        sent := sent + [m];
        later := None;
      }
    }

    method NotifyThreadNotAlive(id: string, useLock: bool) returns (later: Option<Message>)
      modifies this
      ensures Now() == Kill(old(Now()), id, !useLock)
    {
      later := None;
      if !writer || !enableThreadNotifications || id !in runningThreadIds {
        return;
      }
      var thread := runningThreadIds[id];
      runningThreadIds := runningThreadIds - {id};
      if thread !in notifyKill {
        notifyKill := notifyKill + {thread};
      }
      later := Queue(Killed(thread), useLock);
    }

    method SetEnableThreadNotifications(enable: bool)
      modifies this
      ensures Now() == SetEnable(old(Now()), enable)
    {
      if enableThreadNotifications != enable {
        enableThreadNotifications := enable;
        if enable {
          runningThreadIds := map[];
          period := period + 1;
        }
      }
    }

    /** The part of process_internal_commands that holds _lock_running_thread_ids. */
    method ReconcileThreads(allThreads: seq<View>)
      returns (programThreadsAlive: map<string, Thread>, ghost dead: seq<string>)
      modifies this
      ensures programThreadsAlive.Keys == AliveIds(allThreads)
      ensures Now() == KillAll(CreateAll(old(Now()), allThreads), dead)
      ensures forall id :: id in dead <==>
              id in CreateAll(old(Now()), allThreads).running && id !in AliveIds(allThreads)
    {
      programThreadsAlive := map[];
      ghost var s := Now();
      var k := 0;
      while k < |allThreads|
        invariant 0 <= k <= |allThreads|
        invariant programThreadsAlive.Keys == AliveIds(allThreads[..k])
        invariant CreateAll(Now(), allThreads[k..]) == CreateAll(s, allThreads)
      {
        var t := allThreads[k];
        AliveNext(allThreads, k);
        if Program(t) {
          programThreadsAlive := programThreadsAlive[t.thread.id := t.thread];
          var later := NotifyThreadCreated(t.thread, false);
        }
        k := k + 1;
      }
      assert allThreads[..k] == allThreads;
      dead := DropDead(programThreadsAlive.Keys);
    }

    method DropDead(alive: set<string>) returns (ghost dead: seq<string>)
      modifies this
      ensures Now() == KillAll(old(Now()), dead)
      ensures forall id :: id in dead <==> id in old(runningThreadIds) && id !in alive
    {
      ghost var s := Now();
      var ids := runningThreadIds.Keys - alive;
      dead := [];
      while ids != {}
        invariant Now() == KillAll(s, dead)
        invariant forall id :: id in old(runningThreadIds) && id !in alive <==> id in dead || id in ids
        decreases |ids|
      {
        var id :| id in ids;
        var later := NotifyThreadNotAlive(id, false);
        KillAllNext(s, dead, id);
        dead := dead + [id];
        ids := ids - {id};
      }
    }
  }

  lemma AliveNext(views: seq<View>, k: nat)
    requires k < |views|
    ensures AliveIds(views[..k + 1]) == AliveIds(views[..k]) + if Program(views[k]) then {views[k].thread.id} else {}
    ensures views[k..][0] == views[k] && views[k..][1..] == views[k + 1..]
  {
    assert views[..k + 1] == views[..k] + [views[k]];
    assert forall v :: v in views[..k + 1] <==> v in views[..k] || v == views[k];
  }

  lemma {:induction false} KillAllNext(s: State, ids: seq<string>, id: string)
    ensures KillAll(s, ids + [id]) == Kill(KillAll(s, ids), id, true)
    decreases |ids|
  {
    if ids == [] {
      assert ids + [id] == [id];
    } else {
      assert (ids + [id])[1..] == ids[1..] + [id];
      KillAllNext(Kill(s, ids[0], true), ids[1..], id);
    }
  }
}
