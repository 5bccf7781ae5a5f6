/**
 Events for the IDE are held back until the response to its "launch" or "attach" request.

 The handlers that hand events over and the one that responds hold the session's lock, so each
 of them is one step. A send can raise, and a message whose send raised may still have gone out.
 */
module DeferredEvents {
  import opened Options

  type Event = string

  datatype Fate = Sent | Raised(delivered: bool)

  datatype Item = StartResponse | Propagated(event: Event)

  /** `arrived` has every event handed to propagate_after_start, and `sent` the positions in it
      of those that reached the wire. `failed` says that some send has raised. */
  datatype State = State(
    deferred: Option<seq<Event>>,
    responded: bool,
    wire: seq<Item>,
    arrived: seq<Event>,
    sent: seq<nat>,
    failed: bool)

  const INIT := State(Some([]), false, [], [], [], false)

  /** `fates` are those of the sends that the step makes, in order; those after the last are Sent. */
  datatype Action =
    | Propagate(event: Event, fate: Fate)
    | Respond(fates: seq<Fate>)

  function FateOf(fates: seq<Fate>, i: nat): Fate {
    if i < |fates| then fates[i] else Sent
  }

  /** Sends the event that arrived at position `k`. */
  function Put(s: State, k: nat, fate: Fate): State
    requires k < |s.arrived|
  {
    if fate == Raised(false) then s.(failed := true)
    else s.(wire := s.wire + [Propagated(s.arrived[k])], sent := s.sent + [k], failed := s.failed || fate.Raised?)
  }

  function PropagateStep(s: State, e: Event, fate: Fate): State {
    var s1 := s.(arrived := s.arrived + [e]);
    if s.deferred.Some? then s1.(deferred := Some(s.deferred.value + [e])) else Put(s1, |s.arrived|, fate)
  }

  /** _propagate_deferred_events from position `k` on. It stops at the first send that raises,
      and forgets the events only when it has sent them all. */
  function Flush(s: State, k: nat, fates: seq<Fate>): State
    requires k <= |s.arrived|
    decreases |s.arrived| - k
  {
    if k == |s.arrived| then s.(deferred := None)
    else
      var fate := FateOf(fates, k + 1);
      var s1 := Put(s, k, fate);
      if fate.Raised? then s1 else Flush(s1, k + 1, fates)
  }

  /** Request.respond refuses to respond twice. */
  function RespondStep(s: State, fates: seq<Fate>): State {
    if s.responded then s
    else
      match FateOf(fates, 0)
      case Raised(delivered) => s.(wire := s.wire + if delivered then [StartResponse] else [], failed := true)
      case Sent => Flush(s.(wire := s.wire + [StartResponse], responded := true), 0, fates)
  }

  function Step(s: State, a: Action): State {
    match a
    case Propagate(e, fate) => PropagateStep(s, e, fate)
    case Respond(fates) => RespondStep(s, fates)
  }

  ghost predicate Next(s: State, s': State) {
    exists a: Action :: s' == Step(s, a)
  }

  ghost predicate NextAt(run: seq<State>, i: nat)
    requires 0 < i < |run|
  {
    Next(run[i - 1], run[i])
  }

  ghost predicate IsRun(run: seq<State>) {
    && run != []
    && run[0] == INIT
    && forall i | 0 < i < |run| :: NextAt(run, i)
  }

  /** The events on the wire, in order. */
  function Events(wire: seq<Item>): seq<Event> {
    if wire == [] then []
    else
      var before := Events(wire[..|wire| - 1]);
      match wire[|wire| - 1]
      case StartResponse => before
      case Propagated(e) => before + [e]
  }

  lemma {:induction false} EventsAppend(wire: seq<Item>, x: Item)
    ensures Events(wire + [x]) == Events(wire) + if x.Propagated? then [x.event] else []
  {
    assert (wire + [x])[..|wire|] == wire;
  }

  predicate Within(sent: seq<nat>, n: nat) {
    forall i | 0 <= i < |sent| :: sent[i] < n
  }

  /** The wire carries the events that arrived at the positions in `sent`, in order of arrival,
      each once. */
  ghost predicate InOrder(wire: seq<Item>, arrived: seq<Event>, sent: seq<nat>) {
    && (forall i, j | 0 <= i < j < |sent| :: sent[i] < sent[j])
    && Within(sent, |arrived|)
    && Events(wire) == Pick(arrived, sent)
  }

  function Pick(arrived: seq<Event>, sent: seq<nat>): seq<Event>
    requires Within(sent, |arrived|)
  {
    seq(|sent|, i requires 0 <= i < |sent| => arrived[sent[i]])
  }

  /** No event comes before a response. */
  ghost predicate ResponseFirst(wire: seq<Item>) {
    forall i | 0 <= i < |wire| && wire[i].Propagated? :: StartResponse in wire[..i]
  }

  ghost predicate Inv(s: State) {
    && InOrder(s.wire, s.arrived, s.sent)
    && ResponseFirst(s.wire)
    && (s.deferred.Some? ==> s.deferred.value == s.arrived)
    && (s.responded ==> StartResponse in s.wire)
    && (!s.responded ==> s.deferred.Some? && s.sent == [])
    && (!s.failed && s.responded ==> s.deferred.None? && |s.sent| == |s.arrived|)
  }

  lemma PutOrder(s: State, k: nat, fate: Fate)
    requires k < |s.arrived| && InOrder(s.wire, s.arrived, s.sent) && ResponseFirst(s.wire) && StartResponse in s.wire
    requires Within(s.sent, k)
    ensures var s' := Put(s, k, fate);
            && InOrder(s'.wire, s'.arrived, s'.sent) && ResponseFirst(s'.wire) && StartResponse in s'.wire
            && Within(s'.sent, k + 1)
  {
    if fate != Raised(false) {
      var x := Propagated(s.arrived[k]);
      EventsAppend(s.wire, x);
      assert Pick(s.arrived, s.sent + [k]) == Pick(s.arrived, s.sent) + [s.arrived[k]];
      AppendAfterResponse(s.wire, x);
    }
  }

  lemma AppendAfterResponse(wire: seq<Item>, x: Item)
    requires ResponseFirst(wire) && (x.Propagated? ==> StartResponse in wire)
    ensures ResponseFirst(wire + [x])
  {
    forall i | 0 <= i < |wire + [x]| && (wire + [x])[i].Propagated? ensures StartResponse in (wire + [x])[..i] {
      if i < |wire| {
        assert (wire + [x])[..i] == wire[..i];
      } else {
        assert (wire + [x])[..i] == wire;
      }
    }
  }

  lemma {:induction false} FlushInv(s: State, k: nat, fates: seq<Fate>)
    requires k <= |s.arrived| && InOrder(s.wire, s.arrived, s.sent) && ResponseFirst(s.wire) && StartResponse in s.wire
    requires s.responded && s.deferred == Some(s.arrived)
    requires Within(s.sent, k)
    requires !s.failed ==> |s.sent| == k
    ensures Inv(Flush(s, k, fates))
    decreases |s.arrived| - k
  {
    if k < |s.arrived| {
      var fate := FateOf(fates, k + 1);
      PutOrder(s, k, fate);
      if fate.Sent? {
        FlushInv(Put(s, k, fate), k + 1, fates);
      }
    }
  }

  lemma PropagateInv(s: State, e: Event, fate: Fate)
    requires Inv(s)
    ensures Inv(PropagateStep(s, e, fate))
  {
    var s1 := s.(arrived := s.arrived + [e]);
    assert Pick(s1.arrived, s.sent) == Pick(s.arrived, s.sent);
    if s.deferred.None? {
      PutOrder(s1, |s.arrived|, fate);
    }
  }

  lemma RespondInv(s: State, fates: seq<Fate>)
    requires Inv(s)
    ensures Inv(RespondStep(s, fates))
  {
    if !s.responded {
      EventsAppend(s.wire, StartResponse);
      AppendAfterResponse(s.wire, StartResponse);
      if FateOf(fates, 0).Sent? {
        FlushInv(s.(wire := s.wire + [StartResponse], responded := true), 0, fates);
      } else {
        assert s.wire + [] == s.wire;
      }
    }
  }

  lemma {:induction false} RunInv(run: seq<State>, i: nat)
    requires IsRun(run) && i < |run|
    ensures Inv(run[i])
  {
    if i > 0 {
      RunInv(run, i - 1);
      assert NextAt(run, i);
      var a: Action :| run[i] == Step(run[i - 1], a);
      match a
      case Propagate(e, fate) => PropagateInv(run[i - 1], e, fate);
      case Respond(fates) => RespondInv(run[i - 1], fates);
    }
  }

  // ----- over every run -----

  /** Whatever sends raise: the events on the wire are events that arrived, in order of arrival,
      each at most once, and all after the response. */
  lemma DeliveredInOrder(run: seq<State>, i: nat)
    requires IsRun(run) && i < |run|
    ensures InOrder(run[i].wire, run[i].arrived, run[i].sent)
    ensures ResponseFirst(run[i].wire)
  {
    RunInv(run, i);
  }

  lemma Everything(arrived: seq<Event>, sent: seq<nat>)
    requires |sent| == |arrived| && forall i, j | 0 <= i < j < |sent| :: sent[i] < sent[j]
    requires Within(sent, |arrived|)
    ensures Pick(arrived, sent) == arrived
  {
    forall i | 0 <= i < |sent| ensures sent[i] == i {
      AtLeast(sent, i);
      AtMost(sent, i, |arrived|);
    }
  }

  lemma {:induction false} AtLeast(sent: seq<nat>, i: nat)
    requires i < |sent| && forall i, j | 0 <= i < j < |sent| :: sent[i] < sent[j]
    ensures sent[i] >= i
  {
    if i > 0 {
      AtLeast(sent, i - 1);
    }
  }

  lemma {:induction false} AtMost(sent: seq<nat>, i: nat, n: nat)
    requires i < |sent| <= n && (forall i, j | 0 <= i < j < |sent| :: sent[i] < sent[j]) && Within(sent, n)
    ensures sent[i] <= n - (|sent| - i)
    decreases |sent| - i
  {
    if i < |sent| - 1 {
      AtMost(sent, i + 1, n);
    }
  }

  /** When no send raises: before the response nothing is sent, and after it every event that
      arrived, before it or since, has been sent exactly once and in order. */
  lemma DeliveredExactlyOnce(run: seq<State>, i: nat)
    requires IsRun(run) && i < |run| && !run[i].failed
    ensures Events(run[i].wire) == if run[i].responded then run[i].arrived else []
  {
    RunInv(run, i);
    if run[i].responded {
      Everything(run[i].arrived, run[i].sent);
    }
  }

  /** Every event that arrived has been sent. */
  predicate AllOut(s: State) {
    Events(s.wire) == s.arrived
  }

  lemma AllOutIs(s: State)
    requires Inv(s)
    ensures AllOut(s) <==> |s.sent| == |s.arrived|
    ensures |s.sent| <= |s.arrived|
  {
    if |s.sent| == |s.arrived| {
      Everything(s.arrived, s.sent);
    }
    if s.sent != [] {
      AtLeast(s.sent, |s.sent| - 1);
    }
    assert |Events(s.wire)| == |s.sent|;
  }

  /** The fates with which the first `n` deferred events all go out: no send but the last may
      raise, and that one only after its event is out. */
  predicate LetOut(fates: seq<Fate>, k: nat, n: nat) {
    k < n ==> (forall j: nat | k < j < n :: FateOf(fates, j).Sent?) && FateOf(fates, n) != Raised(false)
  }

  lemma {:induction false} FlushSendsAllIff(s: State, k: nat, fates: seq<Fate>)
    requires k == |s.sent| <= |s.arrived|
    ensures |Flush(s, k, fates).sent| == |s.arrived| <==> LetOut(fates, k, |s.arrived|)
    decreases |s.arrived| - k
  {
    if k < |s.arrived| && FateOf(fates, k + 1).Sent? {
      FlushSendsAllIff(Put(s, k, Sent), k + 1, fates);
    }
  }

  lemma {:induction false} FlushKeepsArrived(s: State, k: nat, fates: seq<Fate>)
    requires k <= |s.arrived|
    ensures Flush(s, k, fates).arrived == s.arrived
    decreases |s.arrived| - k
  {
    if k < |s.arrived| && FateOf(fates, k + 1).Sent? {
      FlushKeepsArrived(Put(s, k, Sent), k + 1, fates);
    }
  }

  /** The first response lets every event out exactly if it does not raise itself and its sends of
      events let them out, or if there are none. */
  lemma RespondLetsAllOutIff(s: State, fates: seq<Fate>)
    requires Inv(s) && !s.responded
    ensures AllOut(RespondStep(s, fates)) <==>
            s.arrived == [] || (FateOf(fates, 0).Sent? && LetOut(fates, 0, |s.arrived|))
  {
    RespondInv(s, fates);
    AllOutIs(RespondStep(s, fates));
    if FateOf(fates, 0).Sent? {
      var s1 := s.(wire := s.wire + [StartResponse], responded := true);
      FlushSendsAllIff(s1, 0, fates);
      FlushKeepsArrived(s1, 0, fates);
    }
  }

  /** An event that arrives leaves every event out exactly if all before it are, it is not deferred,
      and its own send does not raise before it is out. */
  lemma PropagateLeavesAllOutIff(s: State, e: Event, fate: Fate)
    requires Inv(s)
    ensures AllOut(PropagateStep(s, e, fate)) <==> AllOut(s) && s.deferred.None? && fate != Raised(false)
  {
    PropagateInv(s, e, fate);
    AllOutIs(PropagateStep(s, e, fate));
    AllOutIs(s);
  }

  /** Once a send has raised, nothing is sent any more, as when the channel has closed. The
      message whose send raised may have gone out. */
  ghost predicate StopsAtFailure(run: seq<State>) {
    forall i | 0 < i < |run| && run[i - 1].failed :: run[i].wire == run[i - 1].wire
  }

  ghost predicate Prefix(s: State) {
    forall i | 0 <= i < |s.sent| :: s.sent[i] == i
  }

  lemma {:induction false} FlushPrefix(s: State, k: nat, fates: seq<Fate>)
    requires k <= |s.arrived| && Prefix(s) && |s.sent| == k
    ensures Prefix(Flush(s, k, fates))
    decreases |s.arrived| - k
  {
    if k < |s.arrived| && FateOf(fates, k + 1).Sent? {
      FlushPrefix(Put(s, k, Sent), k + 1, fates);
    }
  }

  /** Then what has been sent is a beginning of what arrived. */
  lemma {:induction false} DeliveredIsPrefix(run: seq<State>, i: nat)
    requires IsRun(run) && i < |run| && StopsAtFailure(run)
    ensures Prefix(run[i])
    ensures Events(run[i].wire) <= run[i].arrived
  {
    RunInv(run, i);
    if i > 0 {
      DeliveredIsPrefix(run, i - 1);
      RunInv(run, i - 1);
      assert NextAt(run, i);
      var a: Action :| run[i] == Step(run[i - 1], a);
      if run[i - 1].failed {
        SameLength(run[i - 1].wire, run[i - 1].arrived, run[i - 1].sent, run[i].arrived, run[i].sent);
        StepExtends(run[i - 1], a);
      } else {
        StepPrefix(run[i - 1], a);
      }
    }
    PrefixPick(run[i].arrived, run[i].sent);
  }

  lemma StepPrefix(s: State, a: Action)
    requires Inv(s) && Prefix(s) && !s.failed
    ensures Prefix(Step(s, a))
  {
    if a.Respond? && !s.responded && FateOf(a.fates, 0).Sent? {
      FlushPrefix(s.(wire := s.wire + [StartResponse], responded := true), 0, a.fates);
    }
  }

  lemma PrefixPick(arrived: seq<Event>, sent: seq<nat>)
    requires Within(sent, |arrived|) && forall i | 0 <= i < |sent| :: sent[i] == i
    ensures Pick(arrived, sent) <= arrived
  {
    if sent != [] {
      assert sent[|sent| - 1] < |arrived|;
    }
  }

  lemma SameLength(wire: seq<Item>, arrived: seq<Event>, sent: seq<nat>, arrived': seq<Event>, sent': seq<nat>)
    requires InOrder(wire, arrived, sent) && InOrder(wire, arrived', sent')
    ensures |sent| == |sent'|
  {
    assert |Pick(arrived, sent)| == |Pick(arrived', sent')|;
  }

  lemma {:induction false} FlushExtends(s: State, k: nat, fates: seq<Fate>)
    requires k <= |s.arrived|
    ensures s.sent <= Flush(s, k, fates).sent
    decreases |s.arrived| - k
  {
    if k < |s.arrived| && FateOf(fates, k + 1).Sent? {
      FlushExtends(Put(s, k, Sent), k + 1, fates);
    }
  }

  lemma StepExtends(s: State, a: Action)
    ensures s.sent <= Step(s, a).sent
  {
    if a.Respond? && !s.responded && FateOf(a.fates, 0).Sent? {
      FlushExtends(s.(wire := s.wire + [StartResponse], responded := true), 0, a.fates);
    }
  }

  /** When a send of a deferred event raises, the events stay deferred, and so do all later
      ones: nothing is sent after that. */
  lemma {:induction false} StaysDeferred(run: seq<State>, i: nat, j: nat)
    requires IsRun(run) && i <= j < |run|
    requires run[i].responded && run[i].deferred.Some?
    ensures run[j].wire == run[i].wire && run[j].responded && run[j].deferred.Some?
    decreases j - i
  {
    if i < j {
      StaysDeferred(run, i, j - 1);
      assert NextAt(run, j);
    }
  }

  // ----- the IDE component -----

  class IDE {
    var deferredEvents: Option<seq<Event>>
    var startResponded: bool
    var wire: seq<Item>
    ghost var arrived: seq<Event>
    ghost var sent: seq<nat>
    ghost var failed: bool

    constructor ()
      ensures Now() == INIT
    {
      deferredEvents, startResponded, wire := Some([]), false, [];
      arrived, sent, failed := [], [], false;
    }

    ghost function Now(): State
      reads this
    {
      State(deferredEvents, startResponded, wire, arrived, sent, failed)
    }

    /** channel.propagate, of the event that arrived at position `k`. */
    method Send(event: Event, ghost k: nat, fate: Fate)
      requires k < |arrived| && arrived[k] == event
      modifies `wire, `sent, `failed
      ensures Now() == Put(old(Now()), k, fate)
    {
      if fate != Raised(false) {
        wire := wire + [Propagated(event)];
        sent := sent + [k];
      }
      failed := failed || fate.Raised?;
    }

    method PropagateAfterStart(event: Event, fate: Fate)
      modifies this
      ensures Now() == PropagateStep(old(Now()), event, fate)
    {
      arrived := arrived + [event];
      if deferredEvents.Some? {
        deferredEvents := Some(deferredEvents.value + [event]);
      } else {
        Send(event, |arrived| - 1, fate);
      }
    }

    method PropagateDeferredEvents(fates: seq<Fate>)
      requires deferredEvents == Some(arrived)
      modifies this
      ensures Now() == Flush(old(Now()), 0, fates)
    {
      var events := deferredEvents.value;
      for k := 0 to |events|
        invariant deferredEvents == Some(arrived) && arrived == events
        invariant Flush(Now(), k, fates) == Flush(old(Now()), 0, fates)
      {
        var fate := FateOf(fates, k + 1);
        Send(events[k], k, fate);
        if fate.Raised? {
          return;
        }
      }
      deferredEvents := None;
    }

    /** The end of the start request's handler, or of configurationDone_request: the response,
        and then the deferred events. */
    method RespondToStart(fates: seq<Fate>)
      requires Inv(Now())
      modifies this
      ensures Now() == RespondStep(old(Now()), fates)
    {
      if startResponded {
        return; // AssertionError
      }
      var fate := FateOf(fates, 0);
      if fate.Raised? {
        wire := wire + if fate.delivered then [StartResponse] else [];
        failed := true;
        return;
      }
      wire := wire + [StartResponse];
      startResponded := true;
      PropagateDeferredEvents(fates);
    }
  }
}
