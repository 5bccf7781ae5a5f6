/** Outgoing requests: the pending table, the responses, their handlers and their waiters. */
module ChannelTable {
  import opened Options
  import opened Channel
  import opened Sequences

  type Requests = map<nat, Outgoing>

  predicate PoppedIs(p: Parser, n: nat) {
    p.Popped? && p.request == n
  }

  /** Sequence numbers are handed out once. */
  ghost predicate NumbersOk(outgoing: Requests, drafts: map<nat, Draft>, next: nat) {
    && (forall n <- outgoing :: n < next)
    && (forall n <- drafts :: n < next && n !in outgoing)
  }

  /** A request without a response is in `_sent_requests` or just popped from it, never both. */
  ghost predicate TableOk(sent: seq<nat>, outgoing: Requests, parser: Parser) {
    && Distinct(sent)
    && (forall n <- sent :: n in outgoing && outgoing[n].response.None?)
    && (forall n <- outgoing :: outgoing[n].response.None? ==> n in sent || PoppedIs(parser, n))
    && (parser.Popped? ==>
          parser.request in outgoing && outgoing[parser.request].response.None? && parser.request !in sent)
  }

  /** A response is set once, and no handler is left pending behind it. */
  predicate SetOnce(o: Outgoing) {
    && o.writes == (if o.response.None? then 0 else 1)
    && (o.response.Some? ==> o.pending == [])
  }

  ghost predicate AllSetOnce(outgoing: Requests) {
    forall n <- outgoing :: SetOnce(outgoing[n])
  }

  /** The handlers of request `n` that the log enqueues, in order. */
  function HandlersIn(log: seq<Entry>, n: nat): seq<nat> {
    if log == [] then []
    else
      var e := log[|log| - 1];
      HandlersIn(log[..|log| - 1], n) + if e.ResponseEntry? && e.request == n then e.handlers else []
  }

  /** Each handler given to on_response is enqueued once, in order of registration, and only
      with the response that is already set. */
  ghost predicate HandlersOk(outgoing: Requests, log: seq<Entry>) {
    && (forall n <- outgoing :: outgoing[n].registered == HandlersIn(log, n) + outgoing[n].pending)
    && (forall e <- log | e.ResponseEntry? ::
          e.request in outgoing && outgoing[e.request].response == Some(e.reply))
  }

  /** A waiter that is not notified waits for a request that has no response yet. */
  ghost predicate WaitersOk(waiters: map<nat, Waiter>, outgoing: Requests) {
    forall id <- waiters ::
      waiters[id].request in outgoing
      && (!waiters[id].notified ==> outgoing[waiters[id].request].response.None?)
  }

  ghost predicate CoreOk(s: State) {
    && NumbersOk(s.outgoing, s.drafts, s.next)
    && TableOk(s.sent, s.outgoing, s.parser)
    && AllSetOnce(s.outgoing)
    && HandlersOk(s.outgoing, s.queue.log)
    && WaitersOk(s.waiters, s.outgoing)
  }

  /** Responses are made up only by the disconnect section, and that section leaves no request
      unanswered whose send_request returned. */
  ghost predicate DisconnectOk(outgoing: Requests, closed: bool, parser: Parser) {
    && (parser.Finished? ==> closed)
    && (forall n <- outgoing :: outgoing[n].response == Some(NoMoreMessages) ==> parser.Finished?)
    && (forall n <- outgoing :: parser.Finished? && outgoing[n].returned ==> outgoing[n].response.Some?)
  }

  // ----- one lemma for each part that a step changes -----

  lemma {:induction false} RemoveKeeps(ns: seq<nat>, n: nat)
    requires Distinct(ns)
    ensures Distinct(Remove(ns, n))
    ensures forall x :: x in Remove(ns, n) <==> x in ns && x != n
  {
    if ns != [] {
      assert ns == [ns[0]] + ns[1..];
      assert ns[0] !in ns[1..];
      if ns[0] != n {
        RemoveKeeps(ns[1..], n);
        var rest := Remove(ns[1..], n);
        assert ns[0] !in rest;
      }
    }
  }

  lemma HandlersPush(outgoing: Requests, log: seq<Entry>, e: Entry)
    requires HandlersOk(outgoing, log) && !e.ResponseEntry?
    ensures HandlersOk(outgoing, log + [e])
  {
    assert (log + [e])[..|log|] == log;
  }

  /** Enqueueing handlers of request `n` with its response: those that were pending when the
      response is set, or one that is registered later. */
  lemma HandlersRun(outgoing: Requests, log: seq<Entry>, n: nat, o: Outgoing)
    requires HandlersOk(outgoing, log)
    requires n in outgoing && o.response.Some?
    requires if outgoing[n].response.None? then o.registered == outgoing[n].registered
             && o.pending == outgoing[n].pending
             else o.response == outgoing[n].response && outgoing[n].pending == []
                  && o.registered == outgoing[n].registered + o.pending
    ensures HandlersOk(outgoing[n := o.(pending := [])], log + [ResponseEntry(n, o.response.value, o.pending)])
  {
    var e := ResponseEntry(n, o.response.value, o.pending);
    var outgoing' := outgoing[n := o.(pending := [])];
    assert o.registered == HandlersIn(log, n) + o.pending;
    forall m <- outgoing' ensures outgoing'[m].registered == HandlersIn(log + [e], m) + outgoing'[m].pending {
      HandlersInNext(log, e, m);
    }
  }

  lemma HandlersInNext(log: seq<Entry>, e: Entry, m: nat)
    ensures HandlersIn(log + [e], m) == if e.ResponseEntry? && e.request == m then HandlersIn(log, m) + e.handlers
                                        else HandlersIn(log, m)
  {
    assert (log + [e])[..|log|] == log;
  }

  /** A request that no entry names has no handlers in the log. */
  lemma {:induction false} NoHandlers(log: seq<Entry>, n: nat)
    requires forall e <- log | e.ResponseEntry? :: e.request != n
    ensures HandlersIn(log, n) == []
  {
    if log != [] {
      NoHandlers(log[..|log| - 1], n);
    }
  }

  lemma HandlersNew(outgoing: Requests, log: seq<Entry>, n: nat, handlers: seq<nat>, returned: bool)
    requires HandlersOk(outgoing, log) && n !in outgoing
    ensures HandlersOk(outgoing[n := Outgoing(None, 0, handlers, handlers, returned)], log)
  {
    NoHandlers(log, n);
  }

  /** Request `n` may be settled now, which leaves the parser at `parser`. */
  predicate Settles(s: State, n: nat, parser: Parser) {
    && n in s.outgoing && s.outgoing[n].response.None?
    && if n in s.sent then parser == s.parser else PoppedIs(s.parser, n) && parser == Reading
  }

  lemma SettleTable(s: State, n: nat, o: Outgoing, parser: Parser)
    requires Settles(s, n, parser) && TableOk(s.sent, s.outgoing, s.parser) && o.response.Some?
    ensures TableOk(Remove(s.sent, n), s.outgoing[n := o], parser)
  {
    RemoveKeeps(s.sent, n);
  }

  lemma SettleCore(s: State, n: nat, reply: Reply, parser: Parser)
    requires Settles(s, n, parser) && CoreOk(s)
    ensures CoreOk(Settle(Pop(s, n), n, reply).(parser := parser))
  {
    var o := s.outgoing[n];
    var o1 := o.(response := Some(reply), writes := o.writes + 1);
    SettleTable(s, n, o1.(pending := []), parser);
    HandlersRun(s.outgoing, s.queue.log, n, o1);
    SettleRest(s.outgoing, s.waiters, n, o1.(pending := []));
    SettleFrame(s, n, reply, parser);
  }

  lemma SettleRest(outgoing: Requests, waiters: map<nat, Waiter>, n: nat, o: Outgoing)
    requires AllSetOnce(outgoing) && WaitersOk(waiters, outgoing)
    requires n in outgoing && SetOnce(o) && o.response.Some?
    ensures AllSetOnce(outgoing[n := o]) && WaitersOk(NotifyAll(waiters), outgoing[n := o])
  {
  }

  lemma SettleFrame(s: State, n: nat, reply: Reply, parser: Parser)
    requires n in s.outgoing
    ensures var s' := Settle(Pop(s, n), n, reply).(parser := parser);
            var o := s.outgoing[n];
            && s'.outgoing == s.outgoing[n := o.(response := Some(reply), writes := o.writes + 1, pending := [])]
            && s'.sent == Remove(s.sent, n) && s'.parser == parser
            && s'.queue.log == s.queue.log + [ResponseEntry(n, reply, o.pending)]
            && s'.waiters == NotifyAll(s.waiters) && s'.drafts == s.drafts && s'.next == s.next
  {
  }

  /** The disconnect section answers everything that is pending. */
  lemma {:induction false} SettleAllCore(s: State, ns: seq<nat>)
    requires CoreOk(s) && s.parser.Reading? && ns == s.sent
    ensures CoreOk(SettleAll(s, ns)) && SettleAll(s, ns).sent == []
    ensures SettleAll(s, ns).outgoing.Keys == s.outgoing.Keys
    decreases |ns|
  {
    if ns != [] {
      SettleCore(s, ns[0], NoMoreMessages, s.parser);
      SettleAllCore(Settle(Pop(s, ns[0]), ns[0], NoMoreMessages), ns[1..]);
    }
  }

  /** What SettleAll leaves alone. */
  lemma {:induction false} SettleAllFrame(s: State, ns: seq<nat>)
    requires forall n <- ns :: n in s.outgoing
    ensures var s' := SettleAll(s, ns);
            s'.closed == s.closed && s'.parser == s.parser && s'.next == s.next && s'.drafts == s.drafts
            && s'.wire == s.wire && s'.received == s.received && s'.incoming == s.incoming
    decreases |ns|
  {
    if ns != [] {
      SettleAllFrame(Settle(Pop(s, ns[0]), ns[0], NoMoreMessages), ns[1..]);
    }
  }

  lemma TableNew(s: State, n: nat, handlers: seq<nat>, returned: bool)
    requires CoreOk(s) && n in s.drafts
    ensures var outgoing := s.outgoing[n := Outgoing(None, 0, handlers, handlers, returned)];
            NumbersOk(outgoing, s.drafts - {n}, s.next) && TableOk(s.sent + [n], outgoing, s.parser)
            && AllSetOnce(outgoing) && WaitersOk(s.waiters, outgoing)
  {
    assert n !in s.sent;
    assert forall m :: m in s.sent + [n] <==> m in s.sent || m == n;
  }

  lemma WriteCore(s: State, num: nat, o: Outcome)
    requires CoreOk(s) && num in s.drafts
    ensures CoreOk(WriteDraft(s, num, o))
  {
    var d := s.drafts[num];
    assert NumbersOk(s.outgoing, s.drafts - {num}, s.next);
    if d.RequestDraft? {
      TableNew(s, num, d.handlers, o.Written?);
      HandlersNew(s.outgoing, s.queue.log, num, d.handlers, o.Written?);
    }
  }

  /** Replacing a request by one with the same response. */
  lemma SameResponse(s: State, n: nat, o: Outgoing)
    requires CoreOk(s) && n in s.outgoing && o.response == s.outgoing[n].response && SetOnce(o)
    ensures var outgoing := s.outgoing[n := o];
            NumbersOk(outgoing, s.drafts, s.next) && TableOk(s.sent, outgoing, s.parser) && AllSetOnce(outgoing)
            && WaitersOk(s.waiters, outgoing) && WaitersOk(NotifyAll(s.waiters), outgoing)
  {
  }

  lemma HandlersPending(outgoing: Requests, log: seq<Entry>, n: nat, handler: nat)
    requires HandlersOk(outgoing, log) && n in outgoing
    ensures var o := outgoing[n];
            HandlersOk(outgoing[n := o.(registered := o.registered + [handler], pending := o.pending + [handler])], log)
  {
    var o := outgoing[n];
    assert o.registered + [handler] == HandlersIn(log, n) + (o.pending + [handler]);
  }

  lemma RegisterEarly(s: State, n: nat, handler: nat)
    requires CoreOk(s) && n in s.outgoing && s.outgoing[n].response.None?
    ensures CoreOk(Register(s, n, handler))
  {
    var o := s.outgoing[n];
    SameResponse(s, n, o.(registered := o.registered + [handler], pending := o.pending + [handler]));
    HandlersPending(s.outgoing, s.queue.log, n, handler);
  }

  lemma RegisterLate(s: State, n: nat, handler: nat)
    requires CoreOk(s) && n in s.outgoing && s.outgoing[n].response.Some?
    ensures CoreOk(Register(s, n, handler))
  {
    var o := s.outgoing[n];
    assert SetOnce(o);
    var o1 := o.(registered := o.registered + [handler], pending := o.pending + [handler]);
    assert o1.pending == [handler];
    SameResponse(s, n, o1.(pending := []));
    HandlersRun(s.outgoing, s.queue.log, n, o1);
  }

  lemma BeginCore(s: State, d: Draft)
    requires CoreOk(s)
    ensures CoreOk(Begin(s, d))
  {
    assert NumbersOk(s.outgoing, s.drafts[s.next := d], s.next + 1);
  }

  lemma ClientCore(s: State, a: ClientAction)
    requires CoreOk(s) && ClientEnabled(s, a)
    ensures CoreOk(ClientStep(s, a))
  {
    match a
    case BeginRequest(arguments, handlers) => BeginCore(s, RequestDraft(arguments, handlers));
    case BeginEvent(body) => BeginCore(s, EventDraft(body));
    case BeginResponse(at, body) => BeginCore(s, ResponseDraft(at, s.received[at].num, body));
    case Write(num, outcome) => WriteCore(s, num, Effective(s.closed, outcome));
    case OnResponse(num, handler) =>
      if s.outgoing[num].response.None? { RegisterEarly(s, num, handler); } else { RegisterLate(s, num, handler); }
    case _ => WaitCore(s, a);
  }

  lemma WaitCore(s: State, a: ClientAction)
    requires CoreOk(s) && ClientEnabled(s, a) && (a.WaitFor? || a.WaitAgain? || a.Close?)
    ensures CoreOk(ClientStep(s, a))
  {
    assert ClientStep(s, a) == s.(waiters := ClientStep(s, a).waiters, closed := ClientStep(s, a).closed);
  }

  lemma ParseResponseTable(s: State, n: nat, body: Payload)
    requires TableOk(s.sent, s.outgoing, s.parser) && s.parser.Reading?
    ensures if n in s.sent then TableOk(Remove(s.sent, n), s.outgoing, Popped(n, body))
            else TableOk(s.sent, s.outgoing, PoppedUnknown(n))
  {
    RemoveKeeps(s.sent, n);
  }

  lemma ParseCore(s: State, m: Message)
    requires CoreOk(s) && s.parser.Reading?
    ensures CoreOk(ParseMessage(s, m))
  {
    match m
    case Event(_, _) => HandlersPush(s.outgoing, s.queue.log, EventEntry(|s.received|));
    case Request(_, _) => HandlersPush(s.outgoing, s.queue.log, RequestEntry(|s.received|));
    case Response(_, n, body) => ParseResponseTable(s, n, body);
  }

  lemma FinishCore(s: State)
    requires CoreOk(s) && ParserEnabled(s, FinishResponse)
    ensures CoreOk(ParserStep(s, FinishResponse))
  {
    if s.parser.Popped? {
      var n := s.parser.request;
      RemoveKeeps(s.sent, n);
      RemoveAbsent(s.sent, n);
      SettleCore(s, n, Received(s.parser.body), Reading);
    } else {
      HandlersPush(s.outgoing, s.queue.log, UnknownResponseEntry(s.parser.requestNum));
    }
  }

  lemma {:induction false} RemoveAbsent(ns: seq<nat>, n: nat)
    requires n !in ns
    ensures Remove(ns, n) == ns
  {
    if ns != [] {
      RemoveAbsent(ns[1..], n);
    }
  }

  lemma ParserCore(s: State, a: ParserAction)
    requires CoreOk(s) && ParserEnabled(s, a)
    ensures CoreOk(ParserStep(s, a))
  {
    match a
    case Parse(m) => ParseCore(s, m);
    case FinishResponse => FinishCore(s);
    case Disconnect =>
      SettleAllCore(s, s.sent);
      SettleAllFrame(s, s.sent);
      var s1 := SettleAll(s, s.sent);
      HandlersPush(s1.outgoing, s1.queue.log, DisconnectEntry);
    case Crash =>
  }

  lemma StepCore(s: State, a: Action)
    requires CoreOk(s) && Enabled(s, a)
    ensures CoreOk(Step(s, a))
  {
    match a
    case Client(c) => ClientCore(s, c);
    case Parser(p) => ParserCore(s, p);
    case Runner(t, r) => assert Step(s, a).queue.log == s.queue.log;
  }
}
