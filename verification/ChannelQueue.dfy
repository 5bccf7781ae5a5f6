/** The handler queue of a channel, over every step. */
module ChannelQueue {
  import opened Options
  import opened Channel

  /** The entries a handler thread has snapshotted but not handed out yet. */
  function Rest(q: Queue): seq<Entry> {
    if q.thread.Some? && q.thread.value in q.runners && q.runners[q.thread.value].Dispatching?
    then q.runners[q.thread.value].rest else []
  }

  /** `_handler_thread` names the one live handler thread; without one the queue is empty. */
  predicate ThreadsOk(q: Queue) {
    && (q.thread.None? ==> q.runners == map[] && q.entries == [])
    && (q.thread.Some? ==> q.runners.Keys == {q.thread.value} && q.thread.value < q.spawned)
  }

  /** Every entry is handed out once, in the order in which it was enqueued. */
  predicate LogOk(q: Queue) {
    q.log == q.taken + Rest(q) + q.entries
  }

  /** Why a handler thread neither quits early nor sleeps through a wakeup. */
  predicate RunnerOk(q: Queue, r: Runner, closed: bool, parser: Parser) {
    match r
    case Top => true
    case Checked(seen) => (seen ==> closed) && (!seen && parser.Finished? ==> q.entries != [])
    case Waiting(notified) => (notified <==> q.entries != []) && (!notified ==> !parser.Finished?)
    case Dispatching(seen, _) => seen ==> closed && Ended(parser)
  }

  ghost predicate QueueOk(q: Queue, closed: bool, parser: Parser) {
    && ThreadsOk(q)
    && LogOk(q)
    && (parser.Finished? ==> closed)
    && forall t <- q.runners :: RunnerOk(q, q.runners[t], closed, parser)
  }

  lemma PushQueue(q: Queue, e: Entry, closed: bool, parser: Parser)
    requires QueueOk(q, closed, parser)
    ensures QueueOk(Push(q, e), closed, parser)
    ensures !Ended(parser) ==> QueueOk(Push(q, e), true, Finished)
  {
    assert Push(q, e).log == q.taken + Rest(q) + (q.entries + [e]);
  }

  lemma {:induction false} SettleAllQueue(s: State, ns: seq<nat>)
    requires QueueOk(s.queue, s.closed, s.parser)
    requires forall n <- ns :: n in s.outgoing
    ensures QueueOk(SettleAll(s, ns).queue, s.closed, s.parser)
    ensures SettleAll(s, ns).parser == s.parser && SettleAll(s, ns).closed == s.closed
    decreases |ns|
  {
    if ns != [] {
      PushQueue(s.queue, ResponseEntry(ns[0], NoMoreMessages, s.outgoing[ns[0]].pending), s.closed, s.parser);
      SettleAllQueue(Settle(Pop(s, ns[0]), ns[0], NoMoreMessages), ns[1..]);
    }
  }

  lemma RunnerQueue(q: Queue, t: nat, a: RunnerAction, closed: bool, parser: Parser)
    requires QueueOk(q, closed, parser) && RunnerEnabled(q, t, a, parser)
    ensures QueueOk(QueueStep(q, t, a, closed, parser), closed, parser)
  {
    var e := HandedOut(q, t, a);
    if e != [] {
      var rest := q.runners[t].rest;
      assert q.taken + rest + q.entries == q.taken + e + rest[1..] + q.entries;
    }
  }

  lemma ClientQueue(s: State, a: ClientAction)
    requires QueueOk(s.queue, s.closed, s.parser) && ClientEnabled(s, a)
    ensures QueueOk(ClientStep(s, a).queue, ClientStep(s, a).closed, s.parser)
  {
    if a.OnResponse? && s.outgoing[a.num].response.Some? {
      var o := s.outgoing[a.num];
      PushQueue(s.queue, ResponseEntry(a.num, o.response.value, o.pending + [a.handler]), s.closed, s.parser);
    }
  }

  lemma ParseQueue(s: State, m: Message)
    requires QueueOk(s.queue, s.closed, s.parser) && s.parser.Reading?
    ensures QueueOk(ParseMessage(s, m).queue, ParseMessage(s, m).closed, ParseMessage(s, m).parser)
  {
    match m
    case Event(_, _) => PushQueue(s.queue, EventEntry(|s.received|), s.closed, s.parser);
    case Request(_, _) => PushQueue(s.queue, RequestEntry(|s.received|), s.closed, s.parser);
    case Response(_, _, _) => assert ParseMessage(s, m).queue == s.queue;
  }

  lemma ParserQueue(s: State, a: ParserAction)
    requires QueueOk(s.queue, s.closed, s.parser) && ParserEnabled(s, a)
    ensures QueueOk(ParserStep(s, a).queue, ParserStep(s, a).closed, ParserStep(s, a).parser)
  {
    var q := s.queue;
    match a
    case Parse(m) => ParseQueue(s, m);
    case FinishResponse =>
      if s.parser.Popped? {
        var n := s.parser.request;
        PushQueue(q, ResponseEntry(n, Received(s.parser.body), s.outgoing[n].pending), s.closed, s.parser);
      } else {
        PushQueue(q, UnknownResponseEntry(s.parser.requestNum), s.closed, s.parser);
      }
    case Disconnect =>
      SettleAllQueue(s, s.sent);
      PushQueue(SettleAll(s, s.sent).queue, DisconnectEntry, s.closed, s.parser);
    case Crash =>
  }

  lemma StepQueue(s: State, a: Action)
    requires QueueOk(s.queue, s.closed, s.parser) && Enabled(s, a)
    ensures QueueOk(Step(s, a).queue, Step(s, a).closed, Step(s, a).parser)
  {
    match a
    case Client(c) => ClientQueue(s, c);
    case Parser(p) => ParserQueue(s, p);
    case Runner(t, r) => RunnerQueue(s.queue, t, r, s.closed, s.parser);
  }
}
