/**
 What a channel's threads do: what the parser reads and enqueues, how handler threads look, wait,
 take and quit, and who waits for a response; from the actions of a run alone.
 */
module ChannelThreads {
  import opened Options
  import opened Histories
  import opened Channel
  import opened ChannelQueue
  import opened ChannelTable
  import opened ChannelWire
  import opened ChannelRuns
  import opened ChannelHistory
  import opened ChannelRequests

  // ----- what is read -----

  function ReadBy(p: Moment): seq<Message> {
    match p.1
    case Parser(Parse(m)) => [m]
    case _ => []
  }

  lemma StepReceived(s: State, a: Action)
    requires Enabled(s, a)
    ensures Step(s, a).received == s.received + ReadBy((s, a))
  {
    assert s.received + [] == s.received;
    match a
    case Client(c) =>
    case Parser(p) => ParserReceives(s, p);
    case Runner(t, r) =>
  }

  lemma ParserReceives(s: State, a: ParserAction)
    requires ParserEnabled(s, a)
    ensures ParserStep(s, a).received == if a.Parse? then s.received + [a.message] else s.received
  {
    if a.Disconnect? {
      SettleAllFrame(s, s.sent);
    }
  }

  /** What was received is what the parser has read, in order. */
  lemma {:induction false} ReceivedIsRead(run: seq<State>, acts: seq<Action>, i: nat)
    requires Schedules(run, acts) && i <= |acts|
    ensures run[i].received == Collected(Past(run, acts, i), ReadBy)
  {
    if i > 0 {
      ReceivedIsRead(run, acts, i - 1);
      ScheduledStep(run, acts, i - 1);
      StepReceived(run[i - 1], acts[i - 1]);
      CollectedNext(Past(run, acts, i - 1), (run[i - 1], acts[i - 1]), ReadBy);
    }
  }

  predicate OfParser(p: Moment) {
    p.1.Parser?
  }

  predicate Ends(p: Moment) {
    p.1 == Parser(Disconnect)
  }

  predicate Crashes(p: Moment) {
    p.1 == Parser(Crash)
  }

  /** A response is read, to a request that is pending if `known`. */
  predicate ReadsResponse(p: Moment, n: nat, body: Payload, known: bool) {
    p.1.Parser? && p.1.parser.Parse? && p.1.parser.message.Response? && p.1.parser.message.requestNum == n
    && p.1.parser.message.body == body && (known <==> n in p.0.sent)
  }

  function ReadsKnown(n: nat, body: Payload): Moment -> bool {
    (p: Moment) => ReadsResponse(p, n, body, true)
  }

  predicate ReadsUnknownTo(p: Moment, n: nat) {
    p.1.Parser? && p.1.parser.Parse? && p.1.parser.message.Response? && p.1.parser.message.requestNum == n
    && n !in p.0.sent
  }

  function ReadsUnknown(n: nat): Moment -> bool {
    (p: Moment) => ReadsUnknownTo(p, n)
  }

  lemma StepParser(s: State, a: Action, n: nat, body: Payload)
    requires Enabled(s, a)
    ensures var p, p' := s.parser, Step(s, a).parser;
            && (p' == Popped(n, body) <==> ReadsResponse((s, a), n, body, true) || (p == Popped(n, body) && !a.Parser?))
            && (p' == PoppedUnknown(n) <==> ReadsUnknownTo((s, a), n) || (p == PoppedUnknown(n) && !a.Parser?))
            && (p'.Finished? <==> p.Finished? || a == Parser(Disconnect))
            && (p'.Crashed? <==> p.Crashed? || a == Parser(Crash))
  {
    match a
    case Client(c) =>
    case Parser(p) => ParserMovesOn(s, p, n, body);
    case Runner(t, r) =>
  }

  lemma ParserMovesOn(s: State, a: ParserAction, n: nat, body: Payload)
    requires ParserEnabled(s, a)
    ensures var p' := ParserStep(s, a).parser;
            && (p' == Popped(n, body) <==> ReadsResponse((s, Parser(a)), n, body, true))
            && (p' == PoppedUnknown(n) <==> ReadsUnknownTo((s, Parser(a)), n))
            && (p'.Finished? <==> a.Disconnect?)
            && (p'.Crashed? <==> a.Crash?)
  {
  }

  /** Where the parser thread is: between the two parts of a response, which it has read last, or
      at the end of the message loop. */
  lemma {:induction false} ParserIs(run: seq<State>, acts: seq<Action>, i: nat, n: nat, body: Payload)
    requires Schedules(run, acts) && i <= |acts|
    ensures run[i].parser == Popped(n, body) <==> Since(Past(run, acts, i), ReadsKnown(n, body), OfParser)
    ensures run[i].parser == PoppedUnknown(n) <==> Since(Past(run, acts, i), ReadsUnknown(n), OfParser)
    ensures run[i].parser.Finished? <==> Ever(Past(run, acts, i), Ends)
    ensures run[i].parser.Crashed? <==> Ever(Past(run, acts, i), Crashes)
  {
    if i > 0 {
      ParserIs(run, acts, i - 1, n, body);
      ScheduledStep(run, acts, i - 1);
      StepParser(run[i - 1], acts[i - 1], n, body);
      var past, p := Past(run, acts, i - 1), (run[i - 1], acts[i - 1]);
      SinceNext(past, p, ReadsKnown(n, body), OfParser);
      SinceNext(past, p, ReadsUnknown(n), OfParser);
      EverNext(past, p, Ends);
      EverNext(past, p, Crashes);
    }
  }

  // ----- what is enqueued -----

  /** What an action enqueues. */
  function EntriesBy(p: Moment): seq<Entry> {
    match p.1
    case Parser(Parse(m)) =>
      if m.Event? then [EventEntry(|p.0.received|)] else if m.Request? then [RequestEntry(|p.0.received|)] else []
    case Parser(FinishResponse) =>
      if p.0.parser.Popped? && p.0.parser.request in p.0.outgoing then
        [ResponseEntry(p.0.parser.request, Received(p.0.parser.body), p.0.outgoing[p.0.parser.request].pending)]
      else if p.0.parser.PoppedUnknown? then [UnknownResponseEntry(p.0.parser.requestNum)] else []
    case Parser(Disconnect) =>
      if forall n <- p.0.sent :: n in p.0.outgoing then
        AbandonedEntries(p.0.outgoing, p.0.sent) + [DisconnectEntry]
      else []
    case Client(OnResponse(n, handler)) =>
      if n in p.0.outgoing && p.0.outgoing[n].response.Some? then
        [ResponseEntry(n, p.0.outgoing[n].response.value, p.0.outgoing[n].pending + [handler])]
      else []
    case _ => []
  }

  lemma StepEntries(s: State, a: Action)
    requires Enabled(s, a) && TableOk(s.sent, s.outgoing, s.parser)
    ensures Step(s, a).queue.log == s.queue.log + EntriesBy((s, a))
  {
    assert s.queue.log + [] == s.queue.log;
    match a
    case Client(c) =>
    case Parser(p) => ParserEntries(s, p);
    case Runner(t, r) =>
  }

  lemma ParserEntries(s: State, a: ParserAction)
    requires ParserEnabled(s, a) && TableOk(s.sent, s.outgoing, s.parser)
    ensures ParserStep(s, a).queue.log == s.queue.log + EntriesBy((s, Parser(a)))
  {
    assert s.queue.log + [] == s.queue.log;
    if a.Disconnect? {
      SettleAllEntries(s, s.sent);
    }
  }

  /** The handler queue got exactly what the actions enqueue: events and requests when they are read,
      the callbacks of a request with its response when that is recorded, made up, or set already,
      responses to nothing, and the disconnect. */
  lemma {:induction false} LogIs(run: seq<State>, acts: seq<Action>, i: nat)
    requires Schedules(run, acts) && i <= |acts|
    ensures run[i].queue.log == Collected(Past(run, acts, i), EntriesBy)
  {
    if i > 0 {
      LogIs(run, acts, i - 1);
      ScheduledStep(run, acts, i - 1);
      StepEntries(run[i - 1], acts[i - 1]);
      CollectedNext(Past(run, acts, i - 1), (run[i - 1], acts[i - 1]), EntriesBy);
    }
  }

  // ----- handler threads -----

  function LooksAs(t: nat): Moment -> bool {
    (p: Moment) => p.1 == Runner(t, Check)
  }

  function LooksAndSeesClosed(t: nat): Moment -> bool {
    (p: Moment) => p.1 == Runner(t, Check) && p.0.closed
  }

  /** When handler thread `t` looked last, the channel was closed. */
  predicate SawClosed(past: seq<Moment>, t: nat) {
    Since(past, LooksAndSeesClosed(t), LooksAs(t))
  }

  /** A handler thread that has looked remembers what it saw. */
  ghost predicate Remembers(s: State, past: seq<Moment>) {
    forall t <- s.queue.runners | s.queue.runners[t].Checked? :: s.queue.runners[t].closed <==> SawClosed(past, t)
  }

  /** No thread has looked. */
  ghost predicate NobodyLooked(q: Queue, q': Queue) {
    forall t <- q'.runners | q'.runners[t].Checked? :: t in q.runners && q.runners[t] == q'.runners[t]
  }

  lemma PushLooks(q: Queue, e: Entry)
    ensures NobodyLooked(q, Push(q, e))
  {
  }

  lemma {:induction false} SettleAllLooks(s: State, ns: seq<nat>)
    requires forall n <- ns :: n in s.outgoing
    ensures NobodyLooked(s.queue, SettleAll(s, ns).queue)
    decreases |ns|
  {
    if ns != [] {
      var s1 := Settle(Pop(s, ns[0]), ns[0], NoMoreMessages);
      PushLooks(s.queue, ResponseEntry(ns[0], NoMoreMessages, s.outgoing[ns[0]].pending));
      SettleAllLooks(s1, ns[1..]);
    }
  }

  lemma ParserLooks(s: State, a: ParserAction)
    requires ParserEnabled(s, a)
    ensures NobodyLooked(s.queue, ParserStep(s, a).queue)
  {
    match a
    case Parse(m) =>
      if m.Response? {
        assert ParserStep(s, a).queue == s.queue;
      } else {
        PushLooks(s.queue, if m.Event? then EventEntry(|s.received|) else RequestEntry(|s.received|));
      }
    case FinishResponse =>
      if s.parser.Popped? {
        var n := s.parser.request;
        PushLooks(s.queue, ResponseEntry(n, Received(s.parser.body), s.outgoing[n].pending));
      } else {
        PushLooks(s.queue, UnknownResponseEntry(s.parser.requestNum));
      }
    case Disconnect =>
      SettleAllLooks(s, s.sent);
      PushLooks(SettleAll(s, s.sent).queue, DisconnectEntry);
    case Crash =>
  }

  lemma ClientLooks(s: State, a: ClientAction)
    requires ClientEnabled(s, a)
    ensures NobodyLooked(s.queue, ClientStep(s, a).queue)
  {
    if a.OnResponse? && s.outgoing[a.num].response.Some? {
      var o := s.outgoing[a.num];
      PushLooks(s.queue, ResponseEntry(a.num, o.response.value, o.pending + [a.handler]));
    } else {
      assert ClientStep(s, a).queue == s.queue;
    }
  }

  /** Only a look changes what a thread remembers. */
  lemma StepChecked(s: State, a: Action, t: nat)
    requires Enabled(s, a)
    requires var r := Step(s, a).queue.runners; t in r && r[t].Checked?
    ensures if a == Runner(t, Check) then Step(s, a).queue.runners[t].closed == s.closed
            else t in s.queue.runners && s.queue.runners[t] == Step(s, a).queue.runners[t]
  {
    match a
    case Client(c) => ClientLooks(s, c);
    case Parser(p) => ParserLooks(s, p);
    case Runner(u, r) =>
  }

  lemma {:induction false} RemembersHolds(run: seq<State>, acts: seq<Action>, i: nat)
    requires Schedules(run, acts) && i <= |acts|
    ensures Remembers(run[i], Past(run, acts, i))
  {
    if i > 0 {
      RemembersHolds(run, acts, i - 1);
      ScheduledStep(run, acts, i - 1);
      var s, a, past := run[i - 1], acts[i - 1], Past(run, acts, i - 1);
      var runners := run[i].queue.runners;
      forall t <- runners | runners[t].Checked? ensures runners[t].closed <==> SawClosed(past + [(s, a)], t) {
        StepChecked(s, a, t);
        SinceNext(past, (s, a), LooksAndSeesClosed(t), LooksAs(t));
      }
    }
  }

  /** What the locked section of _run_handlers does with what waits in the queue. */
  predicate TakesOrQuits(q: Queue, q': Queue, t: nat, sawClosed: bool) {
    if q.entries != [] then Rest(q') == q.entries && q'.entries == []
    else if sawClosed then t !in q'.runners && q'.thread.None?
    else t in q'.runners && q'.runners[t] == Waiting(false) && q'.entries == []
  }

  /** A handler thread that comes to the queue takes all of it; if the queue is empty it quits exactly
      if it saw the channel closed when it last looked, and waits otherwise. */
  lemma QuitsIff(run: seq<State>, acts: seq<Action>, j: nat, t: nat)
    requires Schedules(run, acts) && j < |acts| && acts[j] == Runner(t, Snapshot)
    ensures TakesOrQuits(run[j].queue, run[j + 1].queue, t, SawClosed(Past(run, acts, j), t))
  {
    ScheduledStep(run, acts, j);
    RemembersHolds(run, acts, j);
  }

  /** A thread that is woken takes the queue as it is; each hand-out hands out the next entry of
      what was taken, and after the last the thread looks again. */
  lemma HandsOutNext(run: seq<State>, acts: seq<Action>, j: nat, t: nat, r: RunnerAction)
    requires Schedules(run, acts) && j < |acts| && acts[j] == Runner(t, r)
    ensures var q, q' := run[j].queue, run[j + 1].queue;
            && (r.Wake? ==> Rest(q') == q.entries && q'.entries == [])
            && (r.HandOut? && Rest(q) != [] ==> q'.taken == q.taken + [Rest(q)[0]] && Rest(q') == Rest(q)[1..])
            && (r.HandOut? && Rest(q) == [] ==> t in q'.runners && q'.runners[t] == Top)
            && (!r.HandOut? ==> q'.taken == q.taken)
  {
    ScheduledStep(run, acts, j);
  }

  // ----- waiting for responses -----

  /** A thread starts to wait for the response of request `n`, which is not set. */
  predicate Waits(p: Moment, id: nat, n: nat) {
    p.1 == Client(WaitFor(id, n)) && ReplyNow(p.0, n).None?
  }

  function WaitsOf(id: nat, n: nat): Moment -> bool {
    (p: Moment) => Waits(p, id, n)
  }

  /** It looks again, and the response is set. */
  predicate Leaves(p: Moment, id: nat, n: nat) {
    p.1 == Client(WaitAgain(id)) && ReplyNow(p.0, n).Some?
  }

  function LeavesOf(id: nat, n: nat): Moment -> bool {
    (p: Moment) => Leaves(p, id, n)
  }

  predicate WaitingFor(s: State, id: nat, n: nat) {
    id in s.waiters && s.waiters[id].request == n
  }

  lemma {:induction false} SettleAllWaiting(s: State, ns: seq<nat>, id: nat, n: nat)
    requires forall m <- ns :: m in s.outgoing
    ensures WaitingFor(SettleAll(s, ns), id, n) <==> WaitingFor(s, id, n)
    decreases |ns|
  {
    if ns != [] {
      SettleAllWaiting(Settle(Pop(s, ns[0]), ns[0], NoMoreMessages), ns[1..], id, n);
    }
  }

  lemma NotifyWaiting(waiters: map<nat, Waiter>, id: nat)
    ensures id in NotifyAll(waiters) <==> id in waiters
    ensures id in waiters ==> NotifyAll(waiters)[id].request == waiters[id].request
  {
  }

  lemma ParserWaiting(s: State, a: ParserAction, id: nat, n: nat)
    requires ParserEnabled(s, a)
    ensures WaitingFor(ParserStep(s, a), id, n) <==> WaitingFor(s, id, n)
  {
    NotifyWaiting(s.waiters, id);
    if a.Disconnect? {
      SettleAllWaiting(s, s.sent, id, n);
      NotifyWaiting(SettleAll(s, s.sent).waiters, id);
    }
  }

  lemma ClientWaiting(s: State, a: ClientAction, id: nat, n: nat)
    requires ClientEnabled(s, a) && WaitersOk(s.waiters, s.outgoing)
    ensures WaitingFor(ClientStep(s, a), id, n) <==>
            Waits((s, Client(a)), id, n) || (WaitingFor(s, id, n) && !Leaves((s, Client(a)), id, n))
  {
    NotifyWaiting(s.waiters, id);
  }

  lemma StepWaiting(s: State, a: Action, id: nat, n: nat)
    requires Enabled(s, a) && WaitersOk(s.waiters, s.outgoing)
    ensures WaitingFor(Step(s, a), id, n) <==>
            Waits((s, a), id, n) || (WaitingFor(s, id, n) && !Leaves((s, a), id, n))
  {
    match a
    case Client(c) => ClientWaiting(s, c, id, n);
    case Parser(p) => ParserWaiting(s, p, id, n);
    case Runner(t, r) =>
  }

  /** A thread waits for the response of a request exactly if it began to when that was not set, and
      has not looked since when it was. */
  lemma {:induction false} WaitingIff(run: seq<State>, acts: seq<Action>, i: nat, id: nat, n: nat)
    requires Schedules(run, acts) && i <= |acts|
    ensures WaitingFor(run[i], id, n) <==> Since(Past(run, acts, i), WaitsOf(id, n), LeavesOf(id, n))
  {
    if i > 0 {
      WaitingIff(run, acts, i - 1, id, n);
      ScheduledStep(run, acts, i - 1);
      StepWaiting(run[i - 1], acts[i - 1], id, n);
      SinceNext(Past(run, acts, i - 1), (run[i - 1], acts[i - 1]), WaitsOf(id, n), LeavesOf(id, n));
    }
  }

  /** Whether the thread that waits under `id` has been notified. */
  predicate NotifiedNow(s: State, id: nat) {
    id in s.waiters && s.waiters[id].notified
  }

  lemma {:induction false} SettleAllNotified(s: State, ns: seq<nat>, id: nat)
    requires (forall n <- ns :: n in s.outgoing) && id in s.waiters
    ensures id in SettleAll(s, ns).waiters
    ensures NotifiedNow(SettleAll(s, ns), id) <==> NotifiedNow(s, id) || ns != []
    decreases |ns|
  {
    if ns != [] {
      SettleAllNotified(Settle(Pop(s, ns[0]), ns[0], NoMoreMessages), ns[1..], id);
    }
  }

  lemma ParserNotifies(s: State, a: ParserAction, id: nat)
    requires ParserEnabled(s, a) && id in s.waiters
    ensures NotifiesAs(s, ParserStep(s, a), false, id)
  {
    match a
    case Parse(m) => ParseNotifies(s, m, id);
    case FinishResponse =>
    case Disconnect =>
      SettleAllNotified(s, s.sent, id);
      SettleAllLog(s, s.sent);
    case Crash =>
  }

  lemma ParseNotifies(s: State, m: Message, id: nat)
    requires id in s.waiters
    ensures NotifiesAs(s, ParseMessage(s, m), false, id)
  {
  }

  /** How notifications of the thread under `id` move in a step. */
  predicate NotifiesAs(s: State, s': State, looks: bool, id: nat) {
    NotifiedNow(s', id) <==>
    id in s.waiters && ((NotifiedNow(s, id) && !looks) || |s'.queue.log| > |s.queue.log|)
  }

  lemma ClientNotifies(s: State, a: ClientAction, id: nat)
    requires ClientEnabled(s, a) && id in ClientStep(s, a).waiters
    ensures NotifiesAs(s, ClientStep(s, a), a == WaitAgain(id), id)
  {
    if a.OnResponse? {
      RegisterNotifies(s, a.num, a.handler, id);
    } else {
      OthersEnqueueNothing(s, a);
    }
  }

  lemma OthersEnqueueNothing(s: State, a: ClientAction)
    requires ClientEnabled(s, a) && !a.OnResponse?
    ensures ClientStep(s, a).queue == s.queue
    ensures !a.WaitFor? && !a.WaitAgain? ==> ClientStep(s, a).waiters == s.waiters
  {
  }

  lemma RegisterNotifies(s: State, n: nat, handler: nat, id: nat)
    requires n in s.outgoing && id in s.waiters
    ensures NotifiesAs(s, Register(s, n, handler), false, id)
  {
  }

  lemma StepNotified(s: State, a: Action, id: nat)
    requires Enabled(s, a) && id in Step(s, a).waiters
    ensures NotifiesAs(s, Step(s, a), a == Client(WaitAgain(id)), id)
  {
    match a
    case Client(c) => ClientNotifies(s, c, id);
    case Parser(p) =>
      ParserWaits(s, p);
      ParserNotifies(s, p, id);
    case Runner(t, r) =>
  }

  lemma {:induction false} SettleAllWaits(s: State, ns: seq<nat>)
    requires forall n <- ns :: n in s.outgoing
    ensures SettleAll(s, ns).waiters.Keys == s.waiters.Keys
    decreases |ns|
  {
    if ns != [] {
      SettleAllWaits(Settle(Pop(s, ns[0]), ns[0], NoMoreMessages), ns[1..]);
    }
  }

  lemma ParserWaits(s: State, a: ParserAction)
    requires ParserEnabled(s, a)
    ensures ParserStep(s, a).waiters.Keys == s.waiters.Keys
  {
    if a.Disconnect? {
      SettleAllWaits(s, s.sent);
    }
  }

  /** A thread that waits is notified whenever something is enqueued, and not otherwise: not when it
      begins to wait, and not when it has looked again. */
  lemma NotifiedIff(run: seq<State>, acts: seq<Action>, j: nat, id: nat)
    requires Schedules(run, acts) && j < |acts| && id in run[j + 1].waiters
    ensures NotifiedNow(run[j + 1], id) <==>
            && id in run[j].waiters
            && ((NotifiedNow(run[j], id) && acts[j] != Client(WaitAgain(id)))
                || |run[j + 1].queue.log| > |run[j].queue.log|)
  {
    ScheduledStep(run, acts, j);
    StepNotified(run[j], acts[j], id);
  }

  // ----- nothing is stuck -----

  /** The parser can always go on: it can read any message, meet the end of the input or fail, or
      finish with the response that it holds, until it is done. */
  lemma ParserNeverStuck(run: seq<State>, i: nat, m: Message)
    requires IsRun(run) && i < |run|
    ensures run[i].parser.Reading? ==>
              Enabled(run[i], Parser(Parse(m))) && Enabled(run[i], Parser(Disconnect)) && Enabled(run[i], Parser(Crash))
    ensures run[i].parser.Popped? || run[i].parser.PoppedUnknown? ==> Enabled(run[i], Parser(FinishResponse))
  {
    TableHolds(run, i);
  }

  /** A handler thread can always go on, except that it waits until it is notified, and, once it saw
      the channel closed, for the parser to be done. */
  lemma HandlersNeverStuck(run: seq<State>, i: nat, t: nat)
    requires IsRun(run) && i < |run| && t in run[i].queue.runners
    ensures var r := run[i].queue.runners[t];
            && (r.Top? ==> Enabled(run[i], Runner(t, Check)))
            && (r.Checked? ==> (Enabled(run[i], Runner(t, Snapshot)) <==> !r.closed || Ended(run[i].parser)))
            && (r.Waiting? ==> (Enabled(run[i], Runner(t, Wake)) <==> r.notified))
            && (r.Dispatching? ==> Enabled(run[i], Runner(t, HandOut)))
  {
  }

  /** A caller can always send, close, and write what it began; register callbacks for a request it
      sent and wait for its response; and a handler that was given a request can respond. */
  lemma CallersNeverStuck(run: seq<State>, i: nat, n: nat)
    requires IsRun(run) && i < |run|
    ensures forall arguments, handlers :: Enabled(run[i], Client(BeginRequest(arguments, handlers)))
    ensures forall body :: Enabled(run[i], Client(BeginEvent(body)))
    ensures Enabled(run[i], Client(Close))
    ensures n in run[i].drafts ==> forall o :: Enabled(run[i], Client(Write(n, o)))
    ensures n in run[i].outgoing ==> forall h :: Enabled(run[i], Client(OnResponse(n, h)))
    ensures n in run[i].outgoing ==>
              forall id | id !in run[i].waiters :: Enabled(run[i], Client(WaitFor(id, n)))
    ensures NotifiedNow(run[i], n) ==> Enabled(run[i], Client(WaitAgain(n)))
    ensures n in run[i].incoming && run[i].incoming[n].Handling? ==>
              forall body :: Enabled(run[i], Client(BeginResponse(n, body)))
  {
    RunInv(run, i);
  }
}
