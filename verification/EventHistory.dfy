/** What an IDE is sent at and after the start, from the actions of a run and the fates of sends. */
module EventHistory {
  import opened Options
  import opened Histories
  import opened DeferredEvents

  /** The actions that a run takes, one between each state and the next. */
  predicate Schedules(run: seq<State>, acts: seq<Action>) {
    && |run| == |acts| + 1
    && run[0] == INIT
    && forall j | 0 <= j < |acts| :: Takes(run, acts, j)
  }

  predicate Takes(run: seq<State>, acts: seq<Action>, j: nat)
    requires j < |acts| && |run| == |acts| + 1
  {
    run[j + 1] == Step(run[j], acts[j])
  }

  /** Any actions are those of a run. */
  lemma {:induction false} RunOf(acts: seq<Action>) returns (run: seq<State>)
    ensures Schedules(run, acts)
    decreases |acts|
  {
    if acts == [] {
      run := [INIT];
    } else {
      var n := |acts| - 1;
      var before := RunOf(acts[..n]);
      run := before + [Step(before[n], acts[n])];
      forall j | 0 <= j < |acts| ensures Takes(run, acts, j) {
        assert j < n ==> Takes(before, acts[..n], j);
      }
    }
  }

  lemma ScheduledIsRun(run: seq<State>, acts: seq<Action>)
    requires Schedules(run, acts)
    ensures IsRun(run)
  {
    forall i | 0 < i < |run| ensures NextAt(run, i) {
      assert Takes(run, acts, i - 1);
    }
  }

  /** An action, and the state in which it is taken. */
  type Moment = (State, Action)

  function Past(run: seq<State>, acts: seq<Action>, i: nat): seq<Moment>
    requires i <= |acts| && |run| == |acts| + 1
  {
    seq(i, j requires 0 <= j < i => (run[j], acts[j]))
  }

  lemma ScheduledStep(run: seq<State>, acts: seq<Action>, i: nat)
    requires Schedules(run, acts) && i < |acts|
    ensures Inv(run[i]) && run[i + 1] == Step(run[i], acts[i])
    ensures Past(run, acts, i + 1) == Past(run, acts, i) + [(run[i], acts[i])]
  {
    assert Takes(run, acts, i);
    ScheduledIsRun(run, acts);
    RunInv(run, i);
  }

  // ----- what the actions say -----

  function EventBy(p: Moment): seq<Event> {
    if p.1.Propagate? then [p.1.event] else []
  }

  /** Send `i` of a response raises: the response itself is send 0, and the events follow. */
  predicate RaisesAt(fates: seq<Fate>, i: nat) {
    i < |fates| && fates[i].Raised?
  }

  /** Send `i` raises when its message is out. */
  predicate OutAt(fates: seq<Fate>, i: nat) {
    i < |fates| && fates[i] == Raised(true)
  }

  /** The response to the start request goes out, and its send does not raise. */
  predicate Responds(p: Moment) {
    p.1.Respond? && !RaisesAt(p.1.fates, 0)
  }

  /** How many of `n` deferred events are sent before the send of one raises. */
  function SentBefore(fates: seq<Fate>, n: nat): (k: nat)
    ensures k <= n && (forall j: nat | 1 <= j <= k :: !RaisesAt(fates, j))
    ensures k < n ==> RaisesAt(fates, k + 1)
  {
    if n == 0 then 0
    else
      var k := SentBefore(fates, n - 1);
      if k == n - 1 && !RaisesAt(fates, n) then n else k
  }

  function Items(events: seq<Event>): seq<Item> {
    seq(|events|, i requires 0 <= i < |events| => Propagated(events[i]))
  }

  /** The deferred events that go out with these fates: those before the first whose send raises,
      and that one if it was out before. */
  function Released(events: seq<Event>, fates: seq<Fate>): seq<Item> {
    var k := SentBefore(fates, |events|);
    Items(events[..k]) + if k < |events| && OutAt(fates, k + 1) then [Propagated(events[k])] else []
  }

  /** What an action puts on the wire, given what arrived before, and whether the response and all
      that was deferred had gone out. */
  function ItemsBy(p: Moment): seq<Item> {
    match p.1
    case Propagate(e, fate) => if p.0.deferred.None? && fate != Raised(false) then [Propagated(e)] else []
    case Respond(fates) =>
      if p.0.responded then []
      else if RaisesAt(fates, 0) && !OutAt(fates, 0) then []
      else [StartResponse] + if !RaisesAt(fates, 0) then Released(p.0.arrived, fates) else []
  }

  /** The response and all that was deferred goes out without an error. */
  predicate Releases(p: Moment) {
    p.1.Respond? && !p.0.responded && !RaisesAt(p.1.fates, 0)
    && SentBefore(p.1.fates, |p.0.arrived|) == |p.0.arrived|
  }

  /** A send that is made raises. */
  predicate Fails(p: Moment) {
    match p.1
    case Propagate(_, fate) => p.0.deferred.None? && fate.Raised?
    case Respond(fates) =>
      !p.0.responded && (RaisesAt(fates, 0) || SentBefore(fates, |p.0.arrived|) < |p.0.arrived|)
  }

  // ----- one step -----

  lemma SentBeforeIs(fates: seq<Fate>, n: nat, k: nat)
    requires k <= n && (forall j: nat | 1 <= j <= k :: !RaisesAt(fates, j))
    requires k < n ==> RaisesAt(fates, k + 1)
    ensures SentBefore(fates, n) == k
  {
  }

  lemma ReleasedNext(events: seq<Event>, fates: seq<Fate>, k: nat)
    requires k < SentBefore(fates, |events|)
    ensures var released := Released(events, fates);
            k < |released| && released[k..] == [Propagated(events[k])] + released[k + 1..]
  {
    var items := Items(events[..SentBefore(fates, |events|)]);
    assert items <= Released(events, fates) && items[k] == Propagated(events[k]);
    FirstOf(Released(events, fates), k);
  }

  lemma FirstOf(items: seq<Item>, k: nat)
    requires k < |items|
    ensures items[k..] == [items[k]] + items[k + 1..]
  {
  }

  /** What flushing from event `k` on makes of the state. */
  predicate Flushed(s: State, k: nat, fates: seq<Fate>, s': State) {
    var n, released := SentBefore(fates, |s.arrived|), Released(s.arrived, fates);
    && k <= n && k <= |released|
    && s'.wire == s.wire + released[k..]
    && s'.deferred == (if n == |s.arrived| then None else s.deferred)
    && s'.arrived == s.arrived && s'.responded == s.responded
    && (s'.failed <==> s.failed || n < |s.arrived|)
  }

  lemma SentBeforeAtLeast(fates: seq<Fate>, n: nat, k: nat)
    requires k <= n && forall j: nat | 1 <= j <= k :: !RaisesAt(fates, j)
    ensures k <= SentBefore(fates, n)
  {
  }

  lemma {:induction false} FlushIs(s: State, k: nat, fates: seq<Fate>)
    requires k <= |s.arrived| && forall j: nat | 1 <= j <= k :: !RaisesAt(fates, j)
    ensures Flushed(s, k, fates, Flush(s, k, fates))
    decreases |s.arrived| - k
  {
    SentBeforeAtLeast(fates, |s.arrived|, k);
    if k == |s.arrived| {
      assert Released(s.arrived, fates)[k..] == [];
    } else if !RaisesAt(fates, k + 1) {
      SentBeforeAtLeast(fates, |s.arrived|, k + 1);
      FlushIs(Put(s, k, Sent), k + 1, fates);
      FlushedNext(s, k, fates, Flush(s, k, fates));
    } else {
      SentBeforeIs(fates, |s.arrived|, k);
    }
  }

  lemma FlushedNext(s: State, k: nat, fates: seq<Fate>, s': State)
    requires k < SentBefore(fates, |s.arrived|) && Flushed(Put(s, k, Sent), k + 1, fates, s')
    ensures Flushed(s, k, fates, s')
  {
    ReleasedNext(s.arrived, fates, k);
    var released := Released(s.arrived, fates);
    assert s.wire + [Propagated(s.arrived[k])] + released[k + 1..] == s.wire + released[k..];
  }

  lemma StepItems(s: State, a: Action)
    ensures var s' := Step(s, a);
            && s'.wire == s.wire + ItemsBy((s, a))
            && s'.arrived == s.arrived + EventBy((s, a))
            && (s'.responded <==> s.responded || Responds((s, a)))
            && (s'.failed <==> s.failed || Fails((s, a)))
            && (s'.deferred.None? <==> s.deferred.None? || Releases((s, a)))
  {
    assert s.wire + [] == s.wire && s.arrived + [] == s.arrived;
    if a.Respond? && !s.responded && !RaisesAt(a.fates, 0) {
      var s1 := s.(wire := s.wire + [StartResponse], responded := true);
      FlushIs(s1, 0, a.fates);
      assert Released(s.arrived, a.fates)[0..] == Released(s.arrived, a.fates);
    }
  }

  predicate Agrees(s: State, past: seq<Moment>) {
    && s.wire == Collected(past, ItemsBy)
    && s.arrived == Collected(past, EventBy)
    && (s.responded <==> Ever(past, Responds))
    && (s.failed <==> Ever(past, Fails))
    && (s.deferred.None? <==> Ever(past, Releases))
  }

  lemma StepAgrees(s: State, a: Action, past: seq<Moment>)
    requires Agrees(s, past)
    ensures Agrees(Step(s, a), past + [(s, a)])
  {
    StepItems(s, a);
    CollectedNext(past, (s, a), ItemsBy);
    CollectedNext(past, (s, a), EventBy);
    EverNext(past, (s, a), Responds);
    EverNext(past, (s, a), Fails);
    EverNext(past, (s, a), Releases);
  }

  /** In every run: what arrived is what was handed over; the wire has, in order, what each action
      sends; the response has been given once one went out without an error, and events are no
      longer deferred once all that were went out with it; and a send has failed exactly if one
      that was made raised. */
  lemma {:induction false} WireIs(run: seq<State>, acts: seq<Action>, i: nat)
    requires Schedules(run, acts) && i <= |acts|
    ensures run[i].wire == Collected(Past(run, acts, i), ItemsBy)
    ensures run[i].arrived == Collected(Past(run, acts, i), EventBy)
    ensures run[i].responded <==> Ever(Past(run, acts, i), Responds)
    ensures run[i].failed <==> Ever(Past(run, acts, i), Fails)
    ensures run[i].deferred.None? <==> Ever(Past(run, acts, i), Releases)
    ensures Agrees(run[i], Past(run, acts, i))
  {
    if i > 0 {
      WireIs(run, acts, i - 1);
      ScheduledStep(run, acts, i - 1);
      StepAgrees(run[i - 1], acts[i - 1], Past(run, acts, i - 1));
    }
  }

  /** No send raises. */
  predicate AllSent(acts: seq<Action>) {
    forall j | 0 <= j < |acts| ::
      match acts[j]
      case Propagate(_, fate) => fate.Sent?
      case Respond(fates) => forall f <- fates :: f.Sent?
  }

  lemma SentNeverFails(p: Moment)
    requires AllSent([p.1])
    ensures !Fails(p) && (Responds(p) <==> p.1.Respond?)
  {
    assert [p.1][0] == p.1;
    if p.1.Respond? {
      forall j: nat ensures !RaisesAt(p.1.fates, j) {
        assert j < |p.1.fates| ==> p.1.fates[j] in p.1.fates;
      }
    }
  }

  /** With no send that raises, nothing goes out before a Respond action, and after one every event
      that was handed over has, once each and in order. */
  lemma AllGoesOut(run: seq<State>, acts: seq<Action>, i: nat)
    requires Schedules(run, acts) && i <= |acts| && AllSent(acts)
    ensures Events(run[i].wire) ==
            if exists j | 0 <= j < i :: acts[j].Respond? then Collected(Past(run, acts, i), EventBy) else []
  {
    WireIs(run, acts, i);
    ScheduledIsRun(run, acts);
    var past := Past(run, acts, i);
    forall j | 0 <= j < i ensures !Fails(past[j]) && (Responds(past[j]) <==> acts[j].Respond?) {
      SentNeverFails(past[j]);
    }
    DeliveredExactlyOnce(run, i);
    if j :| 0 <= j < i && acts[j].Respond? {
      assert Responds(past[j]);
    }
  }
}
