/** What becomes of the requests a channel sends, from the actions of a run alone. */
module ChannelRequests {
  import opened Options
  import opened Histories
  import opened Sequences
  import opened Channel
  import opened ChannelTable
  import opened ChannelWire
  import opened ChannelRuns
  import opened ChannelHistory

  // ----- what the actions say about request `n` -----

  /** The callbacks that an action registers for request `n`: those given when its number is taken,
      or one given to on_response. */
  function HandlersBy(p: Moment, n: nat): seq<nat> {
    match p.1
    case Client(BeginRequest(_, handlers)) => if p.0.next == n then handlers else []
    case Client(OnResponse(m, handler)) => if m == n then [handler] else []
    case _ => []
  }

  function HandlersOf(n: nat): Moment -> seq<nat> {
    (p: Moment) => HandlersBy(p, n)
  }

  /** send_request comes to its end without raising. */
  predicate Returns(p: Moment, n: nat) {
    p.1 == Client(Write(n, Written)) && !p.0.closed
  }

  function ReturnsOf(n: nat): Moment -> bool {
    (p: Moment) => Returns(p, n)
  }

  /** The request is answered with `body`: its response was read, and is recorded now. */
  predicate Answers(p: Moment, n: nat, body: Payload) {
    p.1 == Parser(FinishResponse) && p.0.parser == Popped(n, body)
  }

  function AnswersOf(n: nat, body: Payload): Moment -> bool {
    (p: Moment) => Answers(p, n, body)
  }

  /** The request is pending when the message loop ends. */
  predicate Abandons(p: Moment, n: nat) {
    p.1 == Parser(Disconnect) && n in p.0.sent
  }

  function AbandonsOf(n: nat): Moment -> bool {
    (p: Moment) => Abandons(p, n)
  }

  // ----- one step -----

  /** The reply that request `n` gets in a step. */
  function ReplyBy(s: State, a: Action, n: nat): Option<Reply> {
    if a == Parser(FinishResponse) && s.parser.Popped? && s.parser.request == n then Some(Received(s.parser.body))
    else if a == Parser(Disconnect) && n in s.sent then Some(NoMoreMessages)
    else None
  }

  /** What happens to the record of a request in a step. */
  predicate Moves(s: State, a: Action, n: nat, o: Outgoing, o': Outgoing) {
    && o'.registered == o.registered + HandlersBy((s, a), n)
    && o'.returned == o.returned
    && o'.response == if ReplyBy(s, a, n).Some? then ReplyBy(s, a, n) else o.response
  }

  lemma {:induction false} SettleAllMoves(s: State, ns: seq<nat>, n: nat)
    requires (forall m <- ns :: m in s.outgoing) && n in s.outgoing
    ensures n in SettleAll(s, ns).outgoing
    ensures var o, o' := s.outgoing[n], SettleAll(s, ns).outgoing[n];
            && o'.registered == o.registered && o'.returned == o.returned
            && o'.response == if n in ns then Some(NoMoreMessages) else o.response
    decreases |ns|
  {
    if ns != [] {
      var s1 := Settle(Pop(s, ns[0]), ns[0], NoMoreMessages);
      SettleAllMoves(s1, ns[1..], n);
      assert n in ns <==> n == ns[0] || n in ns[1..];
    }
  }

  lemma ParserMovesRequest(s: State, a: ParserAction, n: nat)
    requires ParserEnabled(s, a) && n in s.outgoing
    ensures n in ParserStep(s, a).outgoing
    ensures Moves(s, Parser(a), n, s.outgoing[n], ParserStep(s, a).outgoing[n])
  {
    assert s.outgoing[n].registered + [] == s.outgoing[n].registered;
    if a.Disconnect? {
      SettleAllMoves(s, s.sent, n);
    }
  }

  lemma ClientMovesRequest(s: State, a: ClientAction, n: nat)
    requires ClientEnabled(s, a) && NumbersOk(s.outgoing, s.drafts, s.next) && n in s.outgoing
    ensures n in ClientStep(s, a).outgoing
    ensures Moves(s, Client(a), n, s.outgoing[n], ClientStep(s, a).outgoing[n])
  {
    assert s.outgoing[n].registered + [] == s.outgoing[n].registered;
  }

  lemma StepMoves(s: State, a: Action, n: nat)
    requires Enabled(s, a) && NumbersOk(s.outgoing, s.drafts, s.next) && n in s.outgoing
    ensures n in Step(s, a).outgoing
    ensures Moves(s, a, n, s.outgoing[n], Step(s, a).outgoing[n])
  {
    match a
    case Client(c) => ClientMovesRequest(s, c, n);
    case Parser(p) => ParserMovesRequest(s, p, n);
    case Runner(t, r) => assert s.outgoing[n].registered + [] == s.outgoing[n].registered;
  }

  /** A request comes into the table when it is written. */
  lemma StepNew(s: State, a: Action, n: nat)
    requires Enabled(s, a) && n !in s.outgoing
    ensures n in Step(s, a).outgoing <==> Writes(a, n) && n in s.drafts && s.drafts[n].RequestDraft?
    ensures n in Step(s, a).outgoing ==>
              var o := Step(s, a).outgoing[n];
              o.registered == s.drafts[n].handlers && o.response.None? && (o.returned <==> Returns((s, a), n))
  {
    match a
    case Client(c) => ClientNew(s, c, n);
    case Parser(p) => ParserNew(s, p);
    case Runner(t, r) =>
  }

  lemma ClientNew(s: State, a: ClientAction, n: nat)
    requires ClientEnabled(s, a) && n !in s.outgoing
    ensures var s' := ClientStep(s, a);
            && (n in s'.outgoing <==> Writes(Client(a), n) && s.drafts[n].RequestDraft?)
            && (n in s'.outgoing ==>
                  s'.outgoing[n] ==
                  Outgoing(None, 0, s.drafts[n].handlers, s.drafts[n].handlers, Returns((s, Client(a)), n)))
  {
  }

  lemma ParserNew(s: State, a: ParserAction)
    requires ParserEnabled(s, a)
    ensures ParserStep(s, a).outgoing.Keys == s.outgoing.Keys
  {
    if a.Disconnect? {
      SettleAllTaken(s, s.sent);
    }
  }

  // ----- over every run -----

  /** A request is known exactly if it was written. */
  lemma {:induction false} KnownIff(run: seq<State>, acts: seq<Action>, i: nat, n: nat)
    requires Schedules(run, acts) && i <= |acts|
    ensures var given := Given(Past(run, acts, i));
            n in run[i].outgoing <==>
            Ever(Past(run, acts, i), WritesOf(n)) && 1 <= n <= |given| && given[n - 1].Request?
  {
    if i > 0 {
      KnownIff(run, acts, i - 1, n);
      ScheduledStep(run, acts, i - 1);
      KnownStep(run[i - 1], acts[i - 1], n, Past(run, acts, i - 1));
      GivenHolds(run, acts, i - 1);
      DraftIff(run, acts, i - 1, n);
      CollectedNext(Past(run, acts, i - 1), (run[i - 1], acts[i - 1]), GivenBy);
    }
  }

  lemma KnownStep(s: State, a: Action, n: nat, past: seq<Moment>)
    requires Enabled(s, a) && NumbersOk(s.outgoing, s.drafts, s.next)
    ensures Ever(past + [(s, a)], WritesOf(n)) <==> Ever(past, WritesOf(n)) || Writes(a, n)
    ensures n in Step(s, a).outgoing <==>
            n in s.outgoing || (Writes(a, n) && n in s.drafts && s.drafts[n].RequestDraft?)
  {
    EverNext(past, (s, a), WritesOf(n));
    if n in s.outgoing {
      StepMoves(s, a, n);
    } else {
      StepNew(s, a, n);
    }
  }

  /** The callbacks registered for request `n` so far. */
  function HandlersNow(s: State, n: nat): Option<seq<nat>> {
    if n in s.outgoing then Some(s.outgoing[n].registered)
    else if n in s.drafts && s.drafts[n].RequestDraft? then Some(s.drafts[n].handlers)
    else if n >= s.next then Some([])
    else None
  }

  lemma StepHandlers(s: State, a: Action, n: nat)
    requires Enabled(s, a) && NumbersOk(s.outgoing, s.drafts, s.next) && HandlersNow(Step(s, a), n).Some?
    ensures HandlersNow(s, n).Some?
    ensures HandlersNow(Step(s, a), n).value == HandlersNow(s, n).value + HandlersBy((s, a), n)
  {
    if n in s.outgoing {
      StepMoves(s, a, n);
    } else {
      StepNew(s, a, n);
      StepDraft(s, a, n);
      if Begins(a) {
        var m, d := BeginMoves(s, a);
        BeginHandlers(s, a, n);
      } else if IsWrite(a) {
        WriteMoves(s, a);
        assert s.drafts[a.client.num].RequestDraft? && a.client.num == n ==>
            HandlersNow(s, n).value + [] == s.drafts[n].handlers;
      } else {
        OthersSendNothing(s, a);
        NoHandlersBy(s, a, n);
      }
      assert HandlersNow(s, n).Some? ==> HandlersNow(s, n).value + [] == HandlersNow(s, n).value;
    }
  }

  lemma BeginHandlers(s: State, a: Action, n: nat)
    requires Enabled(s, a) && Begins(a)
    ensures n == s.next && Step(s, a).drafts[n].RequestDraft? ==> Step(s, a).drafts[n].handlers == HandlersBy((s, a), n)
    ensures n != s.next ==> HandlersBy((s, a), n) == []
  {
  }

  lemma NoHandlersBy(s: State, a: Action, n: nat)
    requires Enabled(s, a) && !Begins(a) && n !in s.outgoing
    ensures HandlersBy((s, a), n) == []
  {
  }

  /** The callbacks of a request are those given to send_request, and then those given to
      on_response, in order. */
  lemma {:induction false} RegisteredAreGiven(run: seq<State>, acts: seq<Action>, i: nat, n: nat)
    requires Schedules(run, acts) && i <= |acts| && HandlersNow(run[i], n).Some?
    ensures HandlersNow(run[i], n).value == Collected(Past(run, acts, i), HandlersOf(n))
  {
    if i > 0 {
      ScheduledStep(run, acts, i - 1);
      StepHandlers(run[i - 1], acts[i - 1], n);
      RegisteredAreGiven(run, acts, i - 1, n);
      CollectedNext(Past(run, acts, i - 1), (run[i - 1], acts[i - 1]), HandlersOf(n));
    }
  }

  lemma {:induction false} NotReturned(run: seq<State>, acts: seq<Action>, i: nat, n: nat)
    requires Schedules(run, acts) && i <= |acts| && n in run[i].drafts
    ensures !Ever(Past(run, acts, i), ReturnsOf(n))
  {
    DraftIff(run, acts, i, n);
    EverImplies(Past(run, acts, i), ReturnsOf(n), WritesOf(n));
  }

  lemma StepReturned(s: State, a: Action, n: nat)
    requires Enabled(s, a) && NumbersOk(s.outgoing, s.drafts, s.next) && n in Step(s, a).outgoing
    ensures n in s.outgoing ==> !Returns((s, a), n) && Step(s, a).outgoing[n].returned == s.outgoing[n].returned
    ensures n !in s.outgoing ==> n in s.drafts && (Step(s, a).outgoing[n].returned <==> Returns((s, a), n))
  {
    if n in s.outgoing {
      StepMoves(s, a, n);
    } else {
      StepNew(s, a, n);
    }
  }

  /** send_request returned exactly if the request was written, without an error, on an open
      channel. */
  lemma {:induction false} ReturnedIff(run: seq<State>, acts: seq<Action>, i: nat, n: nat)
    requires Schedules(run, acts) && i <= |acts| && n in run[i].outgoing
    ensures run[i].outgoing[n].returned <==> Ever(Past(run, acts, i), ReturnsOf(n))
  {
    if i > 0 {
      ScheduledStep(run, acts, i - 1);
      StepReturned(run[i - 1], acts[i - 1], n);
      EverNext(Past(run, acts, i - 1), (run[i - 1], acts[i - 1]), ReturnsOf(n));
      if n in run[i - 1].outgoing {
        ReturnedIff(run, acts, i - 1, n);
      } else {
        NotReturned(run, acts, i - 1, n);
      }
    }
  }

  // ----- the response -----

  function ReplyNow(s: State, n: nat): Option<Reply> {
    if n in s.outgoing then s.outgoing[n].response else None
  }

  lemma StepReply(s: State, a: Action, n: nat)
    requires Enabled(s, a) && NumbersOk(s.outgoing, s.drafts, s.next) && TableOk(s.sent, s.outgoing, s.parser)
    ensures ReplyNow(Step(s, a), n) == if ReplyBy(s, a, n).Some? then ReplyBy(s, a, n) else ReplyNow(s, n)
    ensures ReplyBy(s, a, n).Some? ==> ReplyNow(s, n).None?
  {
    if n in s.outgoing {
      StepMoves(s, a, n);
    } else {
      StepNew(s, a, n);
    }
  }

  /** A request is answered with a body exactly if a response with that body was read for it and
      recorded; with the end of the message loop exactly if it was pending then; else not at all. */
  lemma {:induction false} ReplyIff(run: seq<State>, acts: seq<Action>, i: nat, n: nat, body: Payload)
    requires Schedules(run, acts) && i <= |acts|
    ensures ReplyNow(run[i], n) == Some(Received(body)) <==> Ever(Past(run, acts, i), AnswersOf(n, body))
    ensures ReplyNow(run[i], n) == Some(NoMoreMessages) <==> Ever(Past(run, acts, i), AbandonsOf(n))
  {
    if i > 0 {
      ReplyIff(run, acts, i - 1, n, body);
      ScheduledStep(run, acts, i - 1);
      StepReply(run[i - 1], acts[i - 1], n);
      EverNext(Past(run, acts, i - 1), (run[i - 1], acts[i - 1]), AnswersOf(n, body));
      EverNext(Past(run, acts, i - 1), (run[i - 1], acts[i - 1]), AbandonsOf(n));
    }
  }

  // ----- the requests that are pending -----

  /** The requests that were written and not answered yet, in the order of their writes. */
  function Pending(past: seq<Moment>): seq<nat> {
    if past == [] then []
    else
      var before, p := Pending(past[..|past| - 1]), past[|past| - 1];
      match p.1
      case Client(Write(n, _)) => if n in p.0.drafts && p.0.drafts[n].RequestDraft? then before + [n] else before
      case Parser(Parse(m)) => if m.Response? then Remove(before, m.requestNum) else before
      case Parser(Disconnect) => []
      case _ => before
  }

  lemma StepPending(s: State, a: Action, past: seq<Moment>)
    requires Enabled(s, a) && CoreOk(s) && s.sent == Pending(past)
    ensures Step(s, a).sent == Pending(past + [(s, a)])
  {
    assert (past + [(s, a)])[..|past|] == past;
    match a
    case Client(c) => ClientPending(s, c);
    case Parser(p) => ParserPending(s, p);
    case Runner(t, r) =>
  }

  lemma ClientPending(s: State, a: ClientAction)
    requires ClientEnabled(s, a)
    ensures ClientStep(s, a).sent == if a.Write? && s.drafts[a.num].RequestDraft? then s.sent + [a.num] else s.sent
  {
  }

  lemma ParserPending(s: State, a: ParserAction)
    requires ParserEnabled(s, a) && CoreOk(s)
    ensures ParserStep(s, a).sent ==
            if a.Parse? && a.message.Response? then Remove(s.sent, a.message.requestNum)
            else if a.Disconnect? then [] else s.sent
  {
    match a
    case Parse(m) => if m.Response? && m.requestNum !in s.sent { RemoveAbsent(s.sent, m.requestNum); }
    case Disconnect => SettleAllCore(s, s.sent);
    case _ =>
  }

  /** The pending requests are those written and not answered since, oldest first. */
  lemma {:induction false} PendingIs(run: seq<State>, acts: seq<Action>, i: nat)
    requires Schedules(run, acts) && i <= |acts|
    ensures run[i].sent == Pending(Past(run, acts, i))
  {
    if i > 0 {
      PendingIs(run, acts, i - 1);
      ScheduledStep(run, acts, i - 1);
      StepPending(run[i - 1], acts[i - 1], Past(run, acts, i - 1));
    }
  }

  /** The entries with which the end of the message loop answers the pending requests. */
  function AbandonedEntries(outgoing: Requests, ns: seq<nat>): seq<Entry>
    requires forall n <- ns :: n in outgoing
  {
    seq(|ns|, k requires 0 <= k < |ns| => ResponseEntry(ns[k], NoMoreMessages, outgoing[ns[k]].pending))
  }

  lemma {:induction false} SettleAllEntries(s: State, ns: seq<nat>)
    requires (forall n <- ns :: n in s.outgoing) && Distinct(ns)
    ensures SettleAll(s, ns).queue.log == s.queue.log + AbandonedEntries(s.outgoing, ns)
    decreases |ns|
  {
    if ns != [] {
      var s1 := Settle(Pop(s, ns[0]), ns[0], NoMoreMessages);
      assert forall n <- ns[1..] :: n in ns && n != ns[0];
      SettleAllEntries(s1, ns[1..]);
      var e := ResponseEntry(ns[0], NoMoreMessages, s.outgoing[ns[0]].pending);
      assert s1.queue.log == s.queue.log + [e];
      assert AbandonedEntries(s.outgoing, ns) == [e] + AbandonedEntries(s1.outgoing, ns[1..]);
    }
  }

  /** At the end of the message loop every pending request is answered, oldest first, and then the
      disconnect is reported. */
  lemma DisconnectEnqueues(run: seq<State>, acts: seq<Action>, j: nat)
    requires Schedules(run, acts) && j < |acts| && acts[j] == Parser(Disconnect)
    ensures (forall n <- Pending(Past(run, acts, j)) :: n in run[j].outgoing)
    ensures run[j + 1].queue.log ==
            run[j].queue.log + AbandonedEntries(run[j].outgoing, Pending(Past(run, acts, j))) + [DisconnectEntry]
  {
    PendingIs(run, acts, j);
    ScheduledStep(run, acts, j);
    SettleAllEntries(run[j], run[j].sent);
  }
}
