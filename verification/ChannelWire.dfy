/** Messages that leave and enter a channel, and the requests it was asked to answer. */
module ChannelWire {
  import opened Options
  import opened Channel
  import opened ChannelQueue
  import opened ChannelTable

  // ----- the invariants -----

  /** Sequence numbers are unique on the wire. */
  ghost predicate WireOk(wire: seq<Message>, drafts: map<nat, Draft>, next: nat) {
    && (forall i, j | 0 <= i < j < |wire| :: wire[i].num != wire[j].num)
    && (forall m <- wire :: m.num < next && m.num !in drafts)
    && (forall n <- drafts :: n < next)
  }

  /** A request on the wire has an entry among the outgoing requests. */
  ghost predicate RequestsOk(wire: seq<Message>, outgoing: Requests) {
    forall m <- wire | m.Request? :: m.num in outgoing
  }

  predicate IsRequestAt(received: seq<Message>, at: nat) {
    at < |received| && received[at].Request?
  }

  /** The incoming requests are the positions of requests in what was received. */
  ghost predicate IncomingOk(incoming: map<nat, Status>, received: seq<Message>) {
    forall at: nat :: at in incoming <==> IsRequestAt(received, at)
  }

  ghost predicate DraftsOk(incoming: map<nat, Status>, received: seq<Message>, drafts: map<nat, Draft>) {
    && (forall k <- drafts | drafts[k].ResponseDraft? ::
          && IsRequestAt(received, drafts[k].at) && received[drafts[k].at].num == drafts[k].requestNum
          && drafts[k].at in incoming && incoming[drafts[k].at] == Responding(k, drafts[k].body))
    && (forall at <- incoming | incoming[at].Responding? ::
          && incoming[at].num in drafts
          && drafts[incoming[at].num].ResponseDraft? && drafts[incoming[at].num].at == at)
  }

  /** Request `at` is answered, and `m` is its response. */
  predicate Answers(incoming: map<nat, Status>, received: seq<Message>, at: nat, m: Message) {
    && m.Response? && at in incoming && IsRequestAt(received, at)
    && incoming[at] == Answered(m.num, m.body) && received[at].num == m.requestNum
  }

  /** The responses on the wire are those of the answered requests, with the bodies that were
      given for them. */
  ghost predicate AnswersOk(incoming: map<nat, Status>, received: seq<Message>, wire: seq<Message>) {
    && (forall m <- wire | m.Response? :: exists at <- incoming :: Answers(incoming, received, at, m))
    && (forall at <- incoming | incoming[at].Answered? && IsRequestAt(received, at) ::
          Response(incoming[at].num, received[at].num, incoming[at].body) in wire)
  }

  predicate HasReply(received: seq<Message>, n: nat, body: Payload) {
    exists m <- received :: m.Response? && m.requestNum == n && m.body == body
  }

  /** A response that was not made up was received. */
  ghost predicate RepliesOk(outgoing: Requests, parser: Parser, received: seq<Message>) {
    && (forall n <- outgoing | outgoing[n].response.Some? && outgoing[n].response.value.Received? ::
          HasReply(received, n, outgoing[n].response.value.body))
    && (parser.Popped? ==> HasReply(received, parser.request, parser.body))
  }

  predicate Arrival(e: Entry) {
    e.EventEntry? || e.RequestEntry?
  }

  /** Events and requests are enqueued once each, in the order in which they arrived. */
  ghost predicate ArrivalsOk(log: seq<Entry>, received: seq<Message>) {
    && (forall i, j | 0 <= i < j < |log| && Arrival(log[i]) && Arrival(log[j]) :: log[i].at < log[j].at)
    && (forall e <- log | Arrival(e) ::
          e.at < |received| && if e.EventEntry? then received[e.at].Event? else received[e.at].Request?)
    && (forall at: nat | at < |received| && received[at].Event? :: EventEntry(at) in log)
    && (forall at: nat | at < |received| && received[at].Request? :: RequestEntry(at) in log)
  }

  /** A request counts as queued until it is handed to its handler. */
  ghost predicate QueuedOk(incoming: map<nat, Status>, taken: seq<Entry>) {
    forall at <- incoming :: incoming[at].Queued? <==> RequestEntry(at) !in taken
  }

  /** Disconnect is enqueued once, by the disconnect section, and no event or request after it. */
  ghost predicate LogShape(log: seq<Entry>, parser: Parser) {
    && (forall i | 0 <= i < |log| && log[i].DisconnectEntry? ::
          parser.Finished? && forall j | i < j < |log| :: log[j].ResponseEntry?)
    && (parser.Finished? ==> DisconnectEntry in log)
  }

  predicate OnWire(wire: seq<Message>, n: nat) {
    exists m <- wire :: m.Request? && m.num == n
  }

  /** A request whose send_request returned is on the wire. */
  ghost predicate ReturnedOk(wire: seq<Message>, outgoing: Requests) {
    forall n <- outgoing | outgoing[n].returned :: OnWire(wire, n)
  }

  ghost predicate TrafficOk(s: State) {
    && WireOk(s.wire, s.drafts, s.next)
    && RequestsOk(s.wire, s.outgoing)
    && IncomingOk(s.incoming, s.received)
    && DraftsOk(s.incoming, s.received, s.drafts)
    && AnswersOk(s.incoming, s.received, s.wire)
    && QueuedOk(s.incoming, s.queue.taken)
  }

  ghost predicate HistoryOk(s: State) {
    && RepliesOk(s.outgoing, s.parser, s.received)
    && ArrivalsOk(s.queue.log, s.received)
    && LogShape(s.queue.log, s.parser)
    && DisconnectOk(s.outgoing, s.closed, s.parser)
    && ReturnedOk(s.wire, s.outgoing)
  }

  // ----- client steps -----

  lemma BeginTraffic(s: State, d: Draft)
    requires TrafficOk(s) && !d.ResponseDraft?
    ensures TrafficOk(Begin(s, d))
  {
    assert DraftsOk(s.incoming, s.received, s.drafts[s.next := d]);
  }

  lemma BeginResponseTraffic(s: State, at: nat, body: Payload)
    requires TrafficOk(s) && ClientEnabled(s, BeginResponse(at, body))
    ensures TrafficOk(ClientStep(s, BeginResponse(at, body)))
  {
    var s' := ClientStep(s, BeginResponse(at, body));
    assert WireOk(s.wire, s'.drafts, s'.next);
    forall m <- s.wire | m.Response? ensures exists at <- s'.incoming :: Answers(s'.incoming, s.received, at, m) {
      var a :| a in s.incoming && Answers(s.incoming, s.received, a, m);
      assert Answers(s'.incoming, s.received, a, m);
    }
  }

  lemma WriteWire(s: State, num: nat, o: Outcome)
    requires WireOk(s.wire, s.drafts, s.next) && num in s.drafts
    ensures WireOk(WriteDraft(s, num, o).wire, WriteDraft(s, num, o).drafts, s.next)
  {
    WireMore(s.wire, s.drafts, s.next, Framed(num, s.drafts[num]));
  }

  lemma WireMore(wire: seq<Message>, drafts: map<nat, Draft>, next: nat, m: Message)
    requires WireOk(wire, drafts, next) && m.num in drafts
    ensures WireOk(wire, drafts - {m.num}, next) && WireOk(wire + [m], drafts - {m.num}, next)
  {
  }

  lemma WriteOther(s: State, num: nat, o: Outcome)
    requires TrafficOk(s) && num in s.drafts && !s.drafts[num].ResponseDraft?
    ensures TrafficOk(WriteDraft(s, num, o))
  {
    WriteWire(s, num, o);
    WriteOtherRequests(s, num, o);
    assert DraftsOk(s.incoming, s.received, s.drafts - {num});
  }

  lemma WriteOtherRequests(s: State, num: nat, o: Outcome)
    requires RequestsOk(s.wire, s.outgoing) && AnswersOk(s.incoming, s.received, s.wire)
    requires num in s.drafts && !s.drafts[num].ResponseDraft?
    ensures RequestsOk(WriteDraft(s, num, o).wire, WriteDraft(s, num, o).outgoing)
    ensures AnswersOk(s.incoming, s.received, WriteDraft(s, num, o).wire)
  {
  }

  lemma WriteAnswer(s: State, num: nat, o: Outcome)
    requires TrafficOk(s) && num in s.drafts && s.drafts[num].ResponseDraft?
    ensures TrafficOk(WriteDraft(s, num, o))
  {
    var s' := WriteDraft(s, num, o);
    var d := s.drafts[num];
    WriteWire(s, num, o);
    assert RequestsOk(s'.wire, s.outgoing);
    assert DraftsOk(s'.incoming, s.received, s'.drafts);
    forall m <- s'.wire | m.Response? ensures exists at <- s'.incoming :: Answers(s'.incoming, s.received, at, m) {
      if m in s.wire {
        var a :| a in s.incoming && Answers(s.incoming, s.received, a, m);
        assert a != d.at;
        assert Answers(s'.incoming, s.received, a, m);
      } else {
        assert Answers(s'.incoming, s.received, d.at, m);
      }
    }
  }

  lemma ClientTraffic(s: State, a: ClientAction)
    requires TrafficOk(s) && ClientEnabled(s, a)
    ensures TrafficOk(ClientStep(s, a))
  {
    match a
    case BeginRequest(arguments, handlers) => BeginTraffic(s, RequestDraft(arguments, handlers));
    case BeginEvent(body) => BeginTraffic(s, EventDraft(body));
    case BeginResponse(at, body) => BeginResponseTraffic(s, at, body);
    case Write(num, outcome) =>
      if s.drafts[num].ResponseDraft? { WriteAnswer(s, num, Effective(s.closed, outcome)); }
      else { WriteOther(s, num, Effective(s.closed, outcome)); }
    case _ => WaitTraffic(s, a);
  }

  lemma WaitTraffic(s: State, a: ClientAction)
    requires TrafficOk(s) && ClientEnabled(s, a) && (a.OnResponse? || a.WaitFor? || a.WaitAgain? || a.Close?)
    ensures TrafficOk(ClientStep(s, a))
  {
  }

  // ----- parser and handler thread steps -----

  /** What was received before stays where it is. */
  lemma ReceiveAnswers(s: State, m: Message, incoming: map<nat, Status>)
    requires TrafficOk(s)
    requires incoming == if m.Request? then s.incoming[|s.received| := Queued] else s.incoming
    ensures AnswersOk(incoming, s.received + [m], s.wire)
  {
    forall w <- s.wire | w.Response? ensures exists at <- incoming :: Answers(incoming, s.received + [m], at, w) {
      var a :| a in s.incoming && Answers(s.incoming, s.received, a, w);
      assert Answers(incoming, s.received + [m], a, w);
    }
    forall at <- incoming | incoming[at].Answered? && IsRequestAt(s.received + [m], at)
      ensures Response(incoming[at].num, (s.received + [m])[at].num, incoming[at].body) in s.wire
    {
      assert at != |s.received| && IsRequestAt(s.received, at);
    }
  }

  lemma ReceiveIncoming(s: State, m: Message, incoming: map<nat, Status>)
    requires IncomingOk(s.incoming, s.received) && DraftsOk(s.incoming, s.received, s.drafts)
    requires incoming == if m.Request? then s.incoming[|s.received| := Queued] else s.incoming
    ensures IncomingOk(incoming, s.received + [m])
    ensures DraftsOk(incoming, s.received + [m], s.drafts)
  {
  }

  /** `taken` names no request that has not arrived yet. */
  ghost predicate TakenOk(s: State) {
    && LogOk(s.queue)
    && ArrivalsOk(s.queue.log, s.received)
  }

  lemma ParseRequestTraffic(s: State, m: Message)
    requires TrafficOk(s) && TakenOk(s) && m.Request?
    ensures TrafficOk(ParseMessage(s, m))
  {
    var s' := ParseMessage(s, m);
    var at := |s.received|;
    ReceiveAnswers(s, m, s'.incoming);
    ReceiveIncoming(s, m, s'.incoming);
    forall i | 0 <= i < |s.queue.taken| ensures s.queue.taken[i] != RequestEntry(at) {
      assert s.queue.log[i] == s.queue.taken[i];
    }
    assert QueuedOk(s'.incoming, s.queue.taken);
    assert s'.outgoing == s.outgoing && s'.wire == s.wire && s'.drafts == s.drafts;
  }

  lemma ParseOtherTraffic(s: State, m: Message)
    requires TrafficOk(s) && !m.Request?
    ensures TrafficOk(ParseMessage(s, m))
  {
    ReceiveAnswers(s, m, s.incoming);
    ReceiveIncoming(s, m, s.incoming);
    ParseOtherFrame(s, m);
  }

  lemma ParseOtherFrame(s: State, m: Message)
    requires !m.Request?
    ensures var s' := ParseMessage(s, m);
            && s'.received == s.received + [m]
            && s'.wire == s.wire && s'.drafts == s.drafts && s'.next == s.next
            && s'.outgoing == s.outgoing && s'.incoming == s.incoming && s'.queue.taken == s.queue.taken
  {
    match m {
      case Event(_, _) => assert ParseMessage(s, m) ==
        Enqueue(s.(received := s.received + [m]), EventEntry(|s.received|));
      case Response(_, n, body) =>
    }
  }

  lemma {:induction false} SettleAllTaken(s: State, ns: seq<nat>)
    requires forall n <- ns :: n in s.outgoing
    ensures SettleAll(s, ns).queue.taken == s.queue.taken
    ensures SettleAll(s, ns).outgoing.Keys == s.outgoing.Keys
    decreases |ns|
  {
    if ns != [] {
      SettleAllTaken(Settle(Pop(s, ns[0]), ns[0], NoMoreMessages), ns[1..]);
    }
  }

  lemma ParserTraffic(s: State, a: ParserAction)
    requires TrafficOk(s) && TakenOk(s) && ParserEnabled(s, a)
    ensures TrafficOk(ParserStep(s, a))
  {
    match a
    case Parse(m) =>
      if m.Request? { ParseRequestTraffic(s, m); } else { ParseOtherTraffic(s, m); }
    case FinishResponse =>
    case Disconnect =>
      SettleAllFrame(s, s.sent);
      SettleAllTaken(s, s.sent);
    case Crash =>
  }

  /** The request that is handed out was queued until now. */
  lemma HandOutQueued(s: State, t: nat, e: Entry)
    requires ThreadsOk(s.queue) && TakenOk(s) && TrafficOk(s)
    requires HandedOut(s.queue, t, HandOut) == [e] && e.RequestEntry?
    ensures e.at in s.incoming && s.incoming[e.at].Queued?
  {
    var q := s.queue;
    var k := |q.taken|;
    assert q.log[k] == e;
    forall i | 0 <= i < k ensures q.taken[i] != e {
      assert q.log[i] == q.taken[i];
    }
  }

  /** Handing a queued request to its handler. */
  lemma HandlingTraffic(s: State, at: nat, taken: seq<Entry>)
    requires TrafficOk(s) && at in s.incoming && s.incoming[at].Queued?
    requires taken == s.queue.taken + [RequestEntry(at)]
    ensures var incoming := s.incoming[at := Handling];
            IncomingOk(incoming, s.received) && DraftsOk(incoming, s.received, s.drafts)
            && AnswersOk(incoming, s.received, s.wire) && QueuedOk(incoming, taken)
  {
    var incoming := s.incoming[at := Handling];
    forall m <- s.wire | m.Response? ensures exists at <- incoming :: Answers(incoming, s.received, at, m) {
      var a :| a in s.incoming && Answers(s.incoming, s.received, a, m);
      assert Answers(incoming, s.received, a, m);
    }
    assert forall e :: e in taken <==> e in s.queue.taken || e == RequestEntry(at);
  }

  lemma HandOutTraffic(s: State, t: nat)
    requires ThreadsOk(s.queue) && TakenOk(s) && TrafficOk(s) && RunnerEnabled(s.queue, t, HandOut, s.parser)
    ensures TrafficOk(RunnerStep(s, t, HandOut))
  {
    var s' := RunnerStep(s, t, HandOut);
    var es := HandedOut(s.queue, t, HandOut);
    assert s'.queue.taken == s.queue.taken + es;
    if es != [] && es[0].RequestEntry? {
      HandOutQueued(s, t, es[0]);
      HandlingTraffic(s, es[0].at, s'.queue.taken);
    } else {
      assert forall at: nat :: RequestEntry(at) in s'.queue.taken <==> RequestEntry(at) in s.queue.taken;
      assert QueuedOk(s.incoming, s'.queue.taken);
    }
  }

  lemma StepTraffic(s: State, a: Action)
    requires QueueOk(s.queue, s.closed, s.parser) && ArrivalsOk(s.queue.log, s.received)
    requires TrafficOk(s) && Enabled(s, a)
    ensures TrafficOk(Step(s, a))
  {
    match a
    case Client(c) => ClientTraffic(s, c);
    case Parser(p) => ParserTraffic(s, p);
    case Runner(t, r) =>
      if r.HandOut? { HandOutTraffic(s, t); }
      else { assert Step(s, a).queue.taken == s.queue.taken && Step(s, a).incoming == s.incoming; }
  }

  // ----- the histories -----

  lemma {:induction false} SettleAllLog(s: State, ns: seq<nat>)
    requires forall n <- ns :: n in s.outgoing
    ensures SettleAll(s, ns).outgoing.Keys == s.outgoing.Keys
    ensures s.queue.log <= SettleAll(s, ns).queue.log
    ensures forall i | |s.queue.log| <= i < |SettleAll(s, ns).queue.log| :: SettleAll(s, ns).queue.log[i].ResponseEntry?
    ensures forall n <- s.outgoing ::
              SettleAll(s, ns).outgoing[n].response == s.outgoing[n].response
              || SettleAll(s, ns).outgoing[n].response == Some(NoMoreMessages)
    decreases |ns|
  {
    if ns != [] {
      SettleAllLog(Settle(Pop(s, ns[0]), ns[0], NoMoreMessages), ns[1..]);
    }
  }

  lemma ReplyMore(received: seq<Message>, m: Message, outgoing: Requests, parser: Parser)
    requires RepliesOk(outgoing, parser, received)
    ensures RepliesOk(outgoing, parser, received + [m])
  {
    assert forall w :: w in received ==> w in received + [m];
    forall n <- outgoing | outgoing[n].response.Some? && outgoing[n].response.value.Received?
      ensures HasReply(received + [m], n, outgoing[n].response.value.body)
    {
      assert HasReply(received, n, outgoing[n].response.value.body);
    }
  }

  lemma ArrivalsMore(log: seq<Entry>, received: seq<Message>, e: Entry)
    requires ArrivalsOk(log, received) && !Arrival(e)
    ensures ArrivalsOk(log + [e], received)
  {
    assert forall x :: x in log ==> x in log + [e];
  }

  lemma ArrivalsParse(log: seq<Entry>, received: seq<Message>, m: Message)
    requires ArrivalsOk(log, received)
    ensures m.Event? ==> ArrivalsOk(log + [EventEntry(|received|)], received + [m])
    ensures m.Request? ==> ArrivalsOk(log + [RequestEntry(|received|)], received + [m])
    ensures m.Response? ==> ArrivalsOk(log, received + [m])
  {
    var ev, rq := EventEntry(|received|), RequestEntry(|received|);
    assert forall x :: x in log + [ev] <==> x in log || x == ev;
    assert forall x :: x in log + [rq] <==> x in log || x == rq;
  }

  lemma ShapePush(log: seq<Entry>, parser: Parser, e: Entry)
    requires LogShape(log, parser)
    ensures e.ResponseEntry? ==> LogShape(log + [e], parser)
    ensures !parser.Finished? && !e.DisconnectEntry? ==> LogShape(log + [e], parser)
    ensures !parser.Finished? && e.DisconnectEntry? ==> LogShape(log + [e], Finished)
  {
    assert forall x :: x in log + [e] <==> x in log || x == e;
    assert (log + [e])[|log|] == e;
  }
}
