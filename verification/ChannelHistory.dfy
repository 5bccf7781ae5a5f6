/** What a channel has sent and registered, from the actions of a run alone. */
module ChannelHistory {
  import opened Options
  import opened Histories
  import opened Channel
  import opened ChannelTable
  import opened ChannelWire
  import opened ChannelRuns

  /** The actions that a run takes, one between each state and the next. */
  predicate Schedules(run: seq<State>, acts: seq<Action>) {
    && |run| == |acts| + 1
    && run[0] == INIT
    && forall j | 0 <= j < |acts| :: Takes(run, acts, j)
  }

  predicate Takes(run: seq<State>, acts: seq<Action>, j: nat)
    requires j < |acts| && |run| == |acts| + 1
  {
    Enabled(run[j], acts[j]) && run[j + 1] == Step(run[j], acts[j])
  }

  lemma ScheduledIsRun(run: seq<State>, acts: seq<Action>)
    requires Schedules(run, acts)
    ensures IsRun(run)
  {
    forall i | 0 < i < |run| ensures NextAt(run, i) {
      assert Takes(run, acts, i - 1);
    }
  }

  /** Every run has its actions. */
  lemma {:induction false} RunIsScheduled(run: seq<State>) returns (acts: seq<Action>)
    requires IsRun(run)
    ensures Schedules(run, acts)
    decreases |run|
  {
    acts := [];
    if |run| > 1 {
      var n := |run| - 1;
      forall i | 0 < i < n ensures NextAt(run[..n], i) {
        assert NextAt(run, i);
      }
      var before := RunIsScheduled(run[..n]);
      assert NextAt(run, n);
      var a :| Enabled(run[n - 1], a) && run[n] == Step(run[n - 1], a);
      acts := before + [a];
      ScheduleNext(run, before, a);
    }
  }

  lemma ScheduleNext(run: seq<State>, acts: seq<Action>, a: Action)
    requires |run| > 1 && Schedules(run[..|run| - 1], acts)
    requires Enabled(run[|run| - 2], a) && run[|run| - 1] == Step(run[|run| - 2], a)
    ensures Schedules(run, acts + [a])
  {
    forall j | 0 <= j < |acts| + 1 ensures Takes(run, acts + [a], j) {
      if j < |acts| {
        assert Takes(run[..|run| - 1], acts, j);
      }
    }
  }

  lemma ScheduledStep(run: seq<State>, acts: seq<Action>, i: nat)
    requires Schedules(run, acts) && i < |acts|
    ensures Inv(run[i]) && Enabled(run[i], acts[i]) && run[i + 1] == Step(run[i], acts[i])
    ensures Past(run, acts, i + 1) == Past(run, acts, i) + [(run[i], acts[i])]
  {
    assert Takes(run, acts, i);
    ScheduledIsRun(run, acts);
    RunInv(run, i);
  }

  /** An action, and the state in which it is taken. */
  type Moment = (State, Action)

  function Past(run: seq<State>, acts: seq<Action>, i: nat): seq<Moment>
    requires i <= |acts| && |run| == |acts| + 1
  {
    seq(i, j requires 0 <= j < i => (run[j], acts[j]))
  }

  // ----- what was given to be sent -----

  /** The message that an action is to send: what it was given, under the next number. */
  function GivenBy(p: Moment): seq<Message> {
    match p.1
    case Client(BeginRequest(arguments, _)) => [Request(p.0.next, arguments)]
    case Client(BeginEvent(body)) => [Event(p.0.next, body)]
    case Client(BeginResponse(at, body)) =>
      if at < |p.0.received| then [Response(p.0.next, p.0.received[at].num, body)] else []
    case _ => []
  }

  function Given(past: seq<Moment>): seq<Message> {
    Collected(past, GivenBy)
  }

  predicate Begins(a: Action) {
    a.Client? && (a.client.BeginRequest? || a.client.BeginEvent? || a.client.BeginResponse?)
  }

  predicate IsWrite(a: Action) {
    a.Client? && a.client.Write?
  }

  /** Other actions send nothing and take no number. */
  lemma OthersSendNothing(s: State, a: Action)
    requires Enabled(s, a) && !Begins(a) && !IsWrite(a)
    ensures var s' := Step(s, a);
            s'.wire == s.wire && s'.drafts == s.drafts && s'.next == s.next && GivenBy((s, a)) == []
  {
    match a
    case Client(c) =>
    case Parser(p) => ParserSendsNothing(s, p);
    case Runner(t, r) =>
  }

  lemma ParserSendsNothing(s: State, a: ParserAction)
    requires ParserEnabled(s, a)
    ensures var s' := ParserStep(s, a); s'.wire == s.wire && s'.drafts == s.drafts && s'.next == s.next
  {
    if a.Disconnect? {
      SettleAllFrame(s, s.sent);
    }
  }

  /** Numbers are given from 1 on, and a draft is the message that was given under its number. */
  ghost predicate GivenOk(wire: seq<Message>, drafts: map<nat, Draft>, next: nat, given: seq<Message>) {
    && next == |given| + 1
    && (forall k | 0 <= k < |given| :: given[k].num == k + 1)
    && (forall n <- drafts :: 1 <= n <= |given| && IsDraftOf(drafts[n], given[n - 1]))
    && (forall m <- wire :: 1 <= m.num <= |given| && m == given[m.num - 1])
  }

  predicate IsDraftOf(d: Draft, m: Message) {
    match m
    case Request(_, arguments) => d.RequestDraft? && d.arguments == arguments
    case Event(_, body) => d.EventDraft? && d.body == body
    case Response(_, requestNum, body) => d.ResponseDraft? && d.requestNum == requestNum && d.body == body
  }

  lemma MoreGiven(wire: seq<Message>, drafts: map<nat, Draft>, next: nat, given: seq<Message>, m: Message, d: Draft)
    requires GivenOk(wire, drafts, next, given) && m.num == next && IsDraftOf(d, m)
    ensures GivenOk(wire, drafts[next := d], next + 1, given + [m])
  {
  }

  lemma BeginMoves(s: State, a: Action) returns (m: Message, d: Draft)
    requires Enabled(s, a) && Begins(a)
    ensures GivenBy((s, a)) == [m] && m.num == s.next && IsDraftOf(d, m)
    ensures var s' := Step(s, a); s'.wire == s.wire && s'.drafts == s.drafts[s.next := d] && s'.next == s.next + 1
  {
    m := GivenBy((s, a))[0];
    d := Step(s, a).drafts[s.next];
  }

  lemma WriteMoves(s: State, a: Action)
    requires Enabled(s, a) && IsWrite(a)
    ensures var s', n := Step(s, a), a.client.num;
            && n in s.drafts && GivenBy((s, a)) == []
            && s'.drafts == s.drafts - {n} && s'.next == s.next
            && s'.wire == if SendsFrame(s, a) then s.wire + [Framed(n, s.drafts[n])] else s.wire
  {
  }

  lemma WrittenGiven(wire: seq<Message>, drafts: map<nat, Draft>, next: nat, given: seq<Message>, n: nat)
    requires GivenOk(wire, drafts, next, given) && n in drafts
    ensures 1 <= n <= |given| && Framed(n, drafts[n]) == given[n - 1]
    ensures GivenOk(wire, drafts - {n}, next, given) && GivenOk(wire + [given[n - 1]], drafts - {n}, next, given)
  {
  }

  ghost predicate StateGiven(s: State, given: seq<Message>) {
    GivenOk(s.wire, s.drafts, s.next, given)
  }

  lemma StepGiven(s: State, a: Action, given: seq<Message>)
    requires StateGiven(s, given) && Enabled(s, a)
    ensures StateGiven(Step(s, a), given + GivenBy((s, a)))
  {
    if Begins(a) {
      var m, d := BeginMoves(s, a);
      MoreGiven(s.wire, s.drafts, s.next, given, m, d);
    } else {
      assert given + [] == given;
      if IsWrite(a) {
        WriteMoves(s, a);
        WrittenGiven(s.wire, s.drafts, s.next, given, a.client.num);
      } else {
        OthersSendNothing(s, a);
      }
    }
  }

  lemma {:induction false} GivenHolds(run: seq<State>, acts: seq<Action>, i: nat)
    requires Schedules(run, acts) && i <= |acts|
    ensures StateGiven(run[i], Given(Past(run, acts, i)))
  {
    if i > 0 {
      GivenHolds(run, acts, i - 1);
      ScheduledStep(run, acts, i - 1);
      StepGiven(run[i - 1], acts[i - 1], Given(Past(run, acts, i - 1)));
      CollectedNext(Past(run, acts, i - 1), (run[i - 1], acts[i - 1]), GivenBy);
    }
  }

  /** In every state of every run a message on the wire is exactly what was given to be sent under
      its number: the arguments of a request, the body of an event, and the body of a response to
      the request it was given for. Numbers count the messages that were given. */
  lemma WireIsGiven(run: seq<State>, acts: seq<Action>, i: nat)
    requires Schedules(run, acts) && i <= |acts|
    ensures var given := Given(Past(run, acts, i));
            && (forall k | 0 <= k < |given| :: given[k].num == k + 1)
            && (forall m <- run[i].wire :: 1 <= m.num <= |given| && m == given[m.num - 1])
  {
    GivenHolds(run, acts, i);
  }

  // ----- what is written, and when -----

  /** The action writes number `n`. */
  predicate Writes(a: Action, n: nat) {
    a.Client? && a.client.Write? && a.client.num == n
  }

  function WritesOf(n: nat): Moment -> bool {
    (p: Moment) => Writes(p.1, n)
  }

  /** The action sends a whole frame: the channel is open, and writing raises at most after the
      frame is out. */
  predicate SendsFrame(s: State, a: Action) {
    a.Client? && a.client.Write? && !s.closed && a.client.outcome != Raised(false)
  }

  lemma StepWire(s: State, a: Action, given: seq<Message>)
    requires StateGiven(s, given) && Enabled(s, a)
    ensures Sends(s, a, Step(s, a), given)
  {
    if Begins(a) {
      var m, d := BeginMoves(s, a);
    } else if IsWrite(a) {
      WriteMoves(s, a);
      WrittenGiven(s.wire, s.drafts, s.next, given, a.client.num);
    } else {
      OthersSendNothing(s, a);
    }
  }

  /** From `s` to `s'` goes out what was given under the number that `a` writes, or nothing. */
  predicate Sends(s: State, a: Action, s': State, given: seq<Message>) {
    if SendsFrame(s, a) then 1 <= a.client.num <= |given| && s'.wire == s.wire + [given[a.client.num - 1]]
    else s'.wire == s.wire
  }

  /** A write sends the message that was given under its number, if it sends one; nothing else is
      sent. */
  lemma WriteSendsGiven(run: seq<State>, acts: seq<Action>, j: nat)
    requires Schedules(run, acts) && j < |acts|
    ensures Sends(run[j], acts[j], run[j + 1], Given(Past(run, acts, j)))
  {
    ScheduledStep(run, acts, j);
    GivenHolds(run, acts, j);
    StepWire(run[j], acts[j], Given(Past(run, acts, j)));
  }

  lemma StepDraft(s: State, a: Action, n: nat)
    requires Enabled(s, a)
    ensures n in Step(s, a).drafts <==> (n in s.drafts && !Writes(a, n)) || (GivenBy((s, a)) != [] && n == s.next)
    ensures Writes(a, n) ==> n in s.drafts && GivenBy((s, a)) == []
  {
    if Begins(a) {
      var m, d := BeginMoves(s, a);
    } else if IsWrite(a) {
      WriteMoves(s, a);
    } else {
      OthersSendNothing(s, a);
    }
  }

  /** A number waits to be written exactly if a message was given under it and no write of it has
      come. */
  lemma {:induction false} DraftIff(run: seq<State>, acts: seq<Action>, i: nat, n: nat)
    requires Schedules(run, acts) && i <= |acts|
    ensures n in run[i].drafts <==>
            1 <= n <= |Given(Past(run, acts, i))| && !Ever(Past(run, acts, i), WritesOf(n))
    ensures Ever(Past(run, acts, i), WritesOf(n)) ==> 1 <= n <= |Given(Past(run, acts, i))|
  {
    if i > 0 {
      DraftIff(run, acts, i - 1, n);
      GivenHolds(run, acts, i - 1);
      ScheduledStep(run, acts, i - 1);
      StepDraft(run[i - 1], acts[i - 1], n);
      CollectedNext(Past(run, acts, i - 1), (run[i - 1], acts[i - 1]), GivenBy);
      EverNext(Past(run, acts, i - 1), (run[i - 1], acts[i - 1]), WritesOf(n));
    }
  }

  // ----- closing -----

  predicate Closes(p: Moment) {
    p.1 == Client(Close) || p.1 == Parser(Disconnect)
  }

  /** A channel is closed exactly if close was called or the disconnect section has run. */
  lemma {:induction false} ClosedIff(run: seq<State>, acts: seq<Action>, i: nat)
    requires Schedules(run, acts) && i <= |acts|
    ensures run[i].closed <==> Ever(Past(run, acts, i), Closes)
  {
    if i > 0 {
      ClosedIff(run, acts, i - 1);
      ScheduledStep(run, acts, i - 1);
      EverNext(Past(run, acts, i - 1), (run[i - 1], acts[i - 1]), Closes);
      StepClosed(run[i - 1], acts[i - 1]);
    }
  }

  lemma StepClosed(s: State, a: Action)
    requires Enabled(s, a)
    ensures Step(s, a).closed <==> s.closed || a == Client(Close) || a == Parser(Disconnect)
  {
    match a
    case Client(c) =>
    case Parser(p) => ParserCloses(s, p);
    case Runner(t, r) =>
  }

  lemma ParserCloses(s: State, a: ParserAction)
    requires ParserEnabled(s, a)
    ensures ParserStep(s, a).closed <==> s.closed || a.Disconnect?
  {
  }
}
