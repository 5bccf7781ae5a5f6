/** The invariant of a channel over all its runs, and what follows from it. */
module ChannelRuns {
  import opened Options
  import opened Channel
  import opened ChannelQueue
  import opened ChannelTable
  import opened ChannelWire

  ghost predicate Inv(s: State) {
    && QueueOk(s.queue, s.closed, s.parser)
    && CoreOk(s)
    && TrafficOk(s)
    && HistoryOk(s)
  }

  // ----- the histories, step by step -----

  lemma WriteHistory(s: State, num: nat, outcome: Outcome)
    requires HistoryOk(s) && NumbersOk(s.outgoing, s.drafts, s.next) && num in s.drafts
    ensures HistoryOk(WriteDraft(s, num, Effective(s.closed, outcome)))
  {
    var s' := WriteDraft(s, num, Effective(s.closed, outcome));
    assert RepliesOk(s'.outgoing, s.parser, s.received);
    assert DisconnectOk(s'.outgoing, s.closed, s.parser);
    WriteReturned(s, num, Effective(s.closed, outcome));
  }

  lemma WriteReturned(s: State, num: nat, o: Outcome)
    requires ReturnedOk(s.wire, s.outgoing) && num in s.drafts
    ensures ReturnedOk(WriteDraft(s, num, o).wire, WriteDraft(s, num, o).outgoing)
  {
    var s' := WriteDraft(s, num, o);
    assert forall m :: m in s.wire ==> m in s'.wire;
    forall n <- s'.outgoing | s'.outgoing[n].returned ensures OnWire(s'.wire, n) {
      if n in s.outgoing && s'.outgoing[n] == s.outgoing[n] {
        assert OnWire(s.wire, n);
      } else {
        assert Framed(num, s.drafts[num]) in s'.wire;
      }
    }
  }

  lemma RegisterHistory(s: State, n: nat, handler: nat)
    requires HistoryOk(s) && n in s.outgoing
    ensures HistoryOk(Register(s, n, handler))
  {
    var s' := Register(s, n, handler);
    var o := s.outgoing[n];
    RegisterReplies(s, n, handler);
    if o.response.Some? {
      var e := ResponseEntry(n, o.response.value, o.pending + [handler]);
      ArrivalsMore(s.queue.log, s.received, e);
      ShapePush(s.queue.log, s.parser, e);
    }
  }

  lemma RegisterReplies(s: State, n: nat, handler: nat)
    requires HistoryOk(s) && n in s.outgoing
    ensures RepliesOk(Register(s, n, handler).outgoing, s.parser, s.received)
    ensures DisconnectOk(Register(s, n, handler).outgoing, s.closed, s.parser)
  {
  }

  lemma ClientHistory(s: State, a: ClientAction)
    requires HistoryOk(s) && NumbersOk(s.outgoing, s.drafts, s.next) && ClientEnabled(s, a)
    ensures HistoryOk(ClientStep(s, a))
  {
    match a
    case Write(num, outcome) => WriteHistory(s, num, outcome);
    case OnResponse(num, handler) => RegisterHistory(s, num, handler);
    case _ =>
  }

  lemma ParseArrivalHistory(s: State, m: Message)
    requires HistoryOk(s) && s.parser.Reading? && !m.Response?
    ensures HistoryOk(ParseMessage(s, m))
  {
    var e := if m.Event? then EventEntry(|s.received|) else RequestEntry(|s.received|);
    assert ParseMessage(s, m).queue.log == s.queue.log + [e];
    assert ParseMessage(s, m).outgoing == s.outgoing;
    ReplyMore(s.received, m, s.outgoing, s.parser);
    ArrivalsParse(s.queue.log, s.received, m);
    ShapePush(s.queue.log, s.parser, e);
  }

  /** A parser that moves on without ending the message loop. */
  lemma ParserMoves(s: State, parser: Parser)
    requires LogShape(s.queue.log, s.parser) && DisconnectOk(s.outgoing, s.closed, s.parser)
    requires !s.parser.Finished? && !parser.Finished?
    ensures LogShape(s.queue.log, parser) && DisconnectOk(s.outgoing, s.closed, parser)
  {
  }

  lemma ParseResponseHistory(s: State, m: Message)
    requires HistoryOk(s) && s.parser.Reading? && m.Response?
    ensures HistoryOk(ParseMessage(s, m))
  {
    var received := s.received + [m];
    var parser := if m.requestNum in s.sent then Popped(m.requestNum, m.body) else PoppedUnknown(m.requestNum);
    ReplyMore(s.received, m, s.outgoing, s.parser);
    ArrivalsParse(s.queue.log, s.received, m);
    assert m in received;
    assert HasReply(received, m.requestNum, m.body);
    ParserMoves(s, parser);
    assert RepliesOk(s.outgoing, parser, received);
    assert ParseMessage(s, m) == s.(received := received, parser := parser, sent := ParseMessage(s, m).sent);
  }

  lemma FinishHistory(s: State)
    requires HistoryOk(s) && ParserEnabled(s, FinishResponse)
    ensures HistoryOk(ParserStep(s, FinishResponse))
  {
    var s' := ParserStep(s, FinishResponse);
    var e := if s.parser.Popped?
             then ResponseEntry(s.parser.request, Received(s.parser.body), s.outgoing[s.parser.request].pending)
             else UnknownResponseEntry(s.parser.requestNum);
    assert s'.queue.log == s.queue.log + [e];
    ArrivalsMore(s.queue.log, s.received, e);
    ShapePush(s.queue.log, s.parser, e);
    assert RepliesOk(s'.outgoing, Reading, s.received);
    assert DisconnectOk(s'.outgoing, s.closed, Reading);
  }

  lemma {:induction false} SettleAllArrivals(s: State, ns: seq<nat>)
    requires forall n <- ns :: n in s.outgoing
    requires ArrivalsOk(s.queue.log, s.received) && LogShape(s.queue.log, s.parser)
    ensures ArrivalsOk(SettleAll(s, ns).queue.log, s.received)
    ensures LogShape(SettleAll(s, ns).queue.log, s.parser)
    decreases |ns|
  {
    if ns != [] {
      var e := ResponseEntry(ns[0], NoMoreMessages, s.outgoing[ns[0]].pending);
      ArrivalsMore(s.queue.log, s.received, e);
      ShapePush(s.queue.log, s.parser, e);
      SettleAllArrivals(Settle(Pop(s, ns[0]), ns[0], NoMoreMessages), ns[1..]);
    }
  }

  lemma SettleAllReplies(s: State)
    requires HistoryOk(s) && CoreOk(s) && ParserEnabled(s, Disconnect)
    ensures RepliesOk(SettleAll(s, s.sent).outgoing, Finished, s.received)
    ensures DisconnectOk(SettleAll(s, s.sent).outgoing, true, Finished)
  {
    SettleAllCore(s, s.sent);
    SettleAllFrame(s, s.sent);
    SettleAllLog(s, s.sent);
    var s1 := SettleAll(s, s.sent);
    AllAnswered(s1.sent, s1.outgoing);
    assert RepliesOk(s1.outgoing, Finished, s.received);
  }

  /** With no request left in the table, every one has its response. */
  lemma AllAnswered(sent: seq<nat>, outgoing: Requests)
    requires TableOk(sent, outgoing, Reading) && sent == []
    ensures DisconnectOk(outgoing, true, Finished)
  {
  }

  lemma DisconnectHistory(s: State)
    requires HistoryOk(s) && CoreOk(s) && ParserEnabled(s, Disconnect)
    ensures HistoryOk(LoseConnection(s))
  {
    var log := SettleAll(s, s.sent).queue.log;
    SettleAllFrame(s, s.sent);
    SettleAllReplies(s);
    SettleAllArrivals(s, s.sent);
    ArrivalsMore(log, s.received, DisconnectEntry);
    ShapePush(log, s.parser, DisconnectEntry);
    assert LoseConnection(s).queue.log == log + [DisconnectEntry];
    forall n <- LoseConnection(s).outgoing | LoseConnection(s).outgoing[n].returned ensures OnWire(s.wire, n) {
      SettleAllLog(s, s.sent);
      SettleAllEvolves(s, s.sent, n);
    }
  }

  lemma StepHistory(s: State, a: Action)
    requires HistoryOk(s) && CoreOk(s) && Enabled(s, a)
    ensures HistoryOk(Step(s, a))
  {
    match a
    case Client(c) => ClientHistory(s, c);
    case Parser(Parse(m)) =>
      if m.Response? { ParseResponseHistory(s, m); } else { ParseArrivalHistory(s, m); }
    case Parser(FinishResponse) => FinishHistory(s);
    case Parser(Disconnect) => DisconnectHistory(s);
    case Parser(Crash) =>
    case Runner(t, r) => assert Step(s, a).queue.log == s.queue.log;
  }

  // ----- every reachable state -----

  lemma InitInv()
    ensures Inv(INIT)
  {
  }

  lemma StepInv(s: State, a: Action)
    requires Inv(s) && Enabled(s, a)
    ensures Inv(Step(s, a))
  {
    StepQueue(s, a);
    StepCore(s, a);
    StepTraffic(s, a);
    StepHistory(s, a);
  }

  /** The invariant holds in every state of every run. */
  lemma {:induction false} RunInv(run: seq<State>, i: nat)
    requires IsRun(run) && i < |run|
    ensures Inv(run[i])
  {
    if i == 0 {
      InitInv();
    } else {
      RunInv(run, i - 1);
      assert NextAt(run, i);
      var a :| Enabled(run[i - 1], a) && run[i] == Step(run[i - 1], a);
      StepInv(run[i - 1], a);
    }
  }

  // ----- the handler queue -----

  /** In every run the entries handed out, the rest of the current snapshot and the queue make
      up the log, at most one handler thread is live, and there is one while entries wait. */
  lemma HandedOutOnceInOrder(run: seq<State>, i: nat)
    requires IsRun(run) && i < |run|
    ensures var q := run[i].queue;
            && q.log == q.taken + Rest(q) + q.entries
            && (forall t, u | t in q.runners && u in q.runners :: t == u)
            && (q.entries != [] ==> q.thread.Some? && q.thread.value in q.runners)
  {
    RunInv(run, i);
  }

  lemma {:induction false} SettleAllThread(s: State, ns: seq<nat>)
    requires forall n <- ns :: n in s.outgoing
    ensures s.queue.thread.Some? ==> SettleAll(s, ns).queue.thread.Some?
    decreases |ns|
  {
    if ns != [] {
      SettleAllThread(Settle(Pop(s, ns[0]), ns[0], NoMoreMessages), ns[1..]);
    }
  }

  lemma ClientKeepsThread(s: State, a: ClientAction)
    requires ClientEnabled(s, a) && s.queue.thread.Some?
    ensures ClientStep(s, a).queue.thread.Some?
  {
  }

  lemma ParserKeepsThread(s: State, a: ParserAction)
    requires ParserEnabled(s, a) && s.queue.thread.Some?
    ensures ParserStep(s, a).queue.thread.Some?
  {
    if a.Disconnect? {
      SettleAllThread(s, s.sent);
    }
  }

  lemma QuitStep(s: State, t: nat, a: RunnerAction)
    requires RunnerEnabled(s.queue, t, a, s.parser)
    requires QueueOk(s.queue, s.closed, s.parser)
    requires s.queue.thread.Some? && RunnerStep(s, t, a).queue.thread.None?
    ensures var s' := RunnerStep(s, t, a);
            s'.closed && Ended(s'.parser) && s'.queue.taken == s'.queue.log
  {
    assert RunnerOk(s.queue, s.queue.runners[t], s.closed, s.parser);
    assert t == s.queue.thread.value;
  }

  /** A handler thread quits only when the channel is closed, the parser thread is done and
      everything enqueued so far is handed out. */
  lemma QuitsOnlyWhenDone(run: seq<State>, i: nat)
    requires IsRun(run) && 0 < i < |run|
    requires run[i - 1].queue.thread.Some? && run[i].queue.thread.None?
    ensures run[i].closed && Ended(run[i].parser)
    ensures run[i].queue.taken == run[i].queue.log
  {
    var s := run[i - 1];
    assert NextAt(run, i);
    var a :| Enabled(s, a) && run[i] == Step(s, a);
    match a
    case Client(c) => ClientKeepsThread(s, c);
    case Parser(p) => ParserKeepsThread(s, p);
    case Runner(t, r) =>
      QueueHolds(run, i - 1);
      QuitStep(s, t, r);
  }

  lemma QueueHolds(run: seq<State>, i: nat)
    requires IsRun(run) && i < |run|
    ensures QueueOk(run[i].queue, run[i].closed, run[i].parser)
  {
    RunInv(run, i);
  }

  /** Once the message loop has ended, a handler thread that waits has been notified. */
  lemma NoLostWakeup(run: seq<State>, i: nat, t: nat)
    requires IsRun(run) && i < |run| && run[i].parser.Finished?
    requires t in run[i].queue.runners && run[i].queue.runners[t].Waiting?
    ensures run[i].queue.runners[t].notified
  {
    RunInv(run, i);
    assert RunnerOk(run[i].queue, run[i].queue.runners[t], run[i].closed, run[i].parser);
  }

  /** At most one Disconnect is enqueued, and only handlers of responses follow it. */
  lemma DisconnectIsLast(run: seq<State>, i: nat, k: nat)
    requires IsRun(run) && i < |run|
    requires k < |run[i].queue.log| && run[i].queue.log[k].DisconnectEntry?
    ensures run[i].parser.Finished?
    ensures forall j | k < j < |run[i].queue.log| :: run[i].queue.log[j].ResponseEntry?
  {
    RunInv(run, i);
  }

  // ----- responses -----

  /** Each handler of a request is enqueued once, in order, and never before the response is
      set; a set response leaves none pending. */
  lemma HandlersRunOnce(run: seq<State>, i: nat, n: nat)
    requires IsRun(run) && i < |run| && n in run[i].outgoing
    ensures var o := run[i].outgoing[n];
            && o.registered == HandlersIn(run[i].queue.log, n) + o.pending
            && (o.response.Some? ==> o.pending == [])
            && (o.response.None? ==> HandlersIn(run[i].queue.log, n) == [])
  {
    RunInv(run, i);
    assert SetOnce(run[i].outgoing[n]);
    if run[i].outgoing[n].response.None? {
      NoHandlers(run[i].queue.log, n);
    }
  }

  /** Once the disconnect section has run, every request whose send_request returned has a
      response that was set exactly once, and whoever waits for it has been notified. */
  lemma NobodyWaitsForever(run: seq<State>, i: nat, n: nat)
    requires IsRun(run) && i < |run| && run[i].parser.Finished?
    requires n in run[i].outgoing && run[i].outgoing[n].returned
    ensures run[i].outgoing[n].response.Some? && run[i].outgoing[n].writes == 1
    ensures forall id <- run[i].waiters | run[i].waiters[id].request == n :: run[i].waiters[id].notified
  {
    RunInv(run, i);
    assert SetOnce(run[i].outgoing[n]);
  }

  /** What becomes of request `n` from one state to a later one. */
  predicate Evolves(s: State, s': State, n: nat) {
    && n in s.outgoing && n in s'.outgoing
    && s'.outgoing[n].returned == s.outgoing[n].returned
    && (s.outgoing[n].response.Some? ==> s'.outgoing[n].response == s.outgoing[n].response)
    && (Ended(s.parser) ==> Ended(s'.parser) && s'.outgoing[n].response == s.outgoing[n].response)
  }

  lemma ClientEvolves(s: State, a: ClientAction, n: nat)
    requires NumbersOk(s.outgoing, s.drafts, s.next) && ClientEnabled(s, a) && n in s.outgoing
    ensures Evolves(s, ClientStep(s, a), n)
  {
  }

  lemma {:induction false} SettleAllEvolves(s: State, ns: seq<nat>, n: nat)
    requires (forall m <- ns :: m in s.outgoing) && n in s.outgoing
    ensures n in SettleAll(s, ns).outgoing
    ensures SettleAll(s, ns).outgoing[n].returned == s.outgoing[n].returned
    ensures n !in ns ==> SettleAll(s, ns).outgoing[n] == s.outgoing[n]
    decreases |ns|
  {
    if ns != [] {
      SettleAllEvolves(Settle(Pop(s, ns[0]), ns[0], NoMoreMessages), ns[1..], n);
    }
  }

  lemma ParserEvolves(s: State, a: ParserAction, n: nat)
    requires TableOk(s.sent, s.outgoing, s.parser) && ParserEnabled(s, a) && n in s.outgoing
    ensures Evolves(s, ParserStep(s, a), n)
  {
    if a.Disconnect? {
      SettleAllEvolves(s, s.sent, n);
    }
  }

  lemma RunEvolves(run: seq<State>, j: nat, n: nat)
    requires IsRun(run) && 0 < j < |run| && n in run[j - 1].outgoing
    ensures Evolves(run[j - 1], run[j], n)
  {
    var s := run[j - 1];
    assert NextAt(run, j);
    var a :| Enabled(s, a) && run[j] == Step(s, a);
    TableHolds(run, j - 1);
    match a
    case Client(c) => ClientEvolves(s, c, n);
    case Parser(p) => ParserEvolves(s, p, n);
    case Runner(t, r) =>
  }

  lemma TableHolds(run: seq<State>, i: nat)
    requires IsRun(run) && i < |run|
    ensures NumbersOk(run[i].outgoing, run[i].drafts, run[i].next)
    ensures TableOk(run[i].sent, run[i].outgoing, run[i].parser)
  {
    RunInv(run, i);
  }

  /** A response never changes once set, and after the parser thread is done none is set any
      more: what is unanswered then stays so. */
  lemma {:induction false} ResponsesAreFinal(run: seq<State>, i: nat, j: nat, n: nat)
    requires IsRun(run) && i <= j < |run| && n in run[i].outgoing
    ensures Evolves(run[i], run[j], n)
    decreases j - i
  {
    if i < j {
      ResponsesAreFinal(run, i, j - 1, n);
      RunEvolves(run, j, n);
    }
  }

  // ----- the wire -----

  /** A closed channel stays closed and silent, and its new requests raise. */
  predicate Mute(s: State, s': State) {
    && s'.closed && s'.wire == s.wire
    && forall n <- s'.outgoing | n !in s.outgoing :: !s'.outgoing[n].returned
  }

  lemma StepMute(s: State, a: Action)
    requires Enabled(s, a) && s.closed
    ensures Mute(s, Step(s, a))
  {
    match a
    case Client(c) => ClientMute(s, c);
    case Parser(p) => ParserMute(s, p);
    case Runner(t, r) => assert Step(s, a).outgoing == s.outgoing;
  }

  lemma ClientMute(s: State, a: ClientAction)
    requires ClientEnabled(s, a) && s.closed
    ensures Mute(s, ClientStep(s, a))
  {
  }

  lemma ParserMute(s: State, a: ParserAction)
    requires ParserEnabled(s, a) && s.closed
    ensures Mute(s, ParserStep(s, a))
  {
    if a.Disconnect? {
      SettleAllLog(s, s.sent);
      SettleAllFrame(s, s.sent);
    }
  }

  lemma RunMute(run: seq<State>, j: nat)
    requires IsRun(run) && 0 < j < |run| && run[j - 1].closed
    ensures Mute(run[j - 1], run[j])
  {
    assert NextAt(run, j);
    var a :| Enabled(run[j - 1], a) && run[j] == Step(run[j - 1], a);
    StepMute(run[j - 1], a);
  }

  /** After the channel is closed nothing is sent, and every send_request raises. */
  lemma {:induction false} ClosedSendsFail(run: seq<State>, i: nat, j: nat)
    requires IsRun(run) && i <= j < |run| && run[i].closed
    ensures Mute(run[i], run[j])
    decreases j - i
  {
    if i < j {
      ClosedSendsFail(run, i, j - 1);
      RunMute(run, j);
      forall n <- run[j].outgoing | n !in run[i].outgoing ensures !run[j].outgoing[n].returned {
        if n in run[j - 1].outgoing {
          RunEvolves(run, j, n);
        }
      }
    }
  }

  /** Sequence numbers are unique on the wire. */
  lemma WireNumbersUnique(run: seq<State>, i: nat, j: nat, k: nat)
    requires IsRun(run) && i < |run| && j < k < |run[i].wire|
    ensures run[i].wire[j].num != run[i].wire[k].num
  {
    RunInv(run, i);
  }

  /** Events and requests reach the handler queue once each, in the order of arrival. */
  lemma ArrivalsEnqueuedOnce(run: seq<State>, i: nat, at: nat)
    requires IsRun(run) && i < |run| && at < |run[i].received| && !run[i].received[at].Response?
    ensures var e := if run[i].received[at].Event? then EventEntry(at) else RequestEntry(at);
            e in run[i].queue.log && multiset(run[i].queue.log)[e] == 1
    ensures forall j, k | 0 <= j < k < |run[i].queue.log| && Arrival(run[i].queue.log[j])
            && Arrival(run[i].queue.log[k]) ::
              run[i].queue.log[j].at < run[i].queue.log[k].at
  {
    RunInv(run, i);
    OnceInLog(run[i].queue.log, if run[i].received[at].Event? then EventEntry(at) else RequestEntry(at));
  }

  lemma OnceInLog(log: seq<Entry>, e: Entry)
    requires e in log && Arrival(e)
    requires forall i, j | 0 <= i < j < |log| && Arrival(log[i]) && Arrival(log[j]) :: log[i].at < log[j].at
    ensures multiset(log)[e] == 1
  {
    var k :| 0 <= k < |log| && log[k] == e;
    assert log == log[..k] + [e] + log[k + 1..];
    assert e !in log[..k] && e !in log[k + 1..];
  }
}
