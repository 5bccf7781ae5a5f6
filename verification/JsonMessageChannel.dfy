/**
 JsonMessageChannel as the source writes it: an object whose methods update its fields while
 they hold the lock. Every method below is one such stretch of code, and its contract says
 which step of the state machine in Channel it is.
 */
module MessageChannel {
  import opened Options
  import opened Channel
  import opened ChannelTable
  import opened Sequences

  class JsonMessageChannel {
    var closed: bool
    var nextSeq: nat
    var sentRequests: seq<nat>
    var requests: map<nat, Outgoing>
    var handlerQueue: seq<Entry>
    var handlerThread: Option<nat>

    // where the threads stand, and the histories
    ghost var parser: Parser
    ghost var runners: map<nat, Runner>
    var spawned: nat
    ghost var waiters: map<nat, Waiter>
    ghost var drafts: map<nat, Draft>
    ghost var incoming: map<nat, Status>
    ghost var wire: seq<Message>
    var received: seq<Message>
    ghost var log: seq<Entry>
    ghost var taken: seq<Entry>

    ghost function QueueNow(): Queue
      reads this
    {
      Queue(handlerQueue, handlerThread, runners, spawned, log, taken)
    }

    ghost function Now(): State
      reads this
    {
      State(closed, parser, QueueNow(), sentRequests, requests, waiters, nextSeq, drafts, wire, received, incoming)
    }

    constructor ()
      ensures Now() == INIT
    {
      closed, nextSeq, sentRequests, requests := false, 1, [], map[];
      handlerQueue, handlerThread := [], None;
      parser, runners, spawned, waiters, drafts := Reading, map[], 0, map[], map[];
      incoming, wire, received, log, taken := map[], [], [], [], [];
    }

    // ----- sending -----

    /** The first half of _send_message. */
    method TakeSequenceNumber(ghost d: Draft) returns (num: nat)
      modifies this
      ensures num == old(nextSeq) && Now() == Begin(old(Now()), d)
    {
      num := nextSeq;
      nextSeq := nextSeq + 1;
      drafts := drafts[num := d];
    }

    /** stream.write_json of the message that holds sequence number `num`: refused outright by a
        closed stream, else ending as `outcome` says. */
    method WriteJson(num: nat, outcome: Outcome) returns (raised: bool)
      requires num in drafts
      modifies this`drafts, this`wire
      ensures raised <==> !Effective(closed, outcome).Written?
      ensures drafts == old(drafts) - {num}
      ensures wire == old(wire) + if Delivers(Effective(closed, outcome)) then [Framed(num, old(drafts)[num])] else []
    {
      ghost var d := drafts[num];
      drafts := drafts - {num};
      if closed {
        raised := true;
      } else {
        raised := !outcome.Written?;
        if Delivers(outcome) {
          wire := wire + [Framed(num, d)];
        }
      }
    }

    /** The second half of send_request: the request is in the table before it is written, and
        stays there when writing raises. */
    method SendRequest(num: nat, arguments: Payload, handlers: seq<nat>, outcome: Outcome) returns (raised: bool)
      requires num in drafts && drafts[num] == RequestDraft(arguments, handlers)
      modifies this
      ensures raised <==> !Effective(old(closed), outcome).Written?
      ensures Now() == WriteDraft(old(Now()), num, Effective(old(closed), outcome))
    {
      ghost var s := Now();
      requests := requests[num := Outgoing(None, 0, handlers, handlers, false)];
      sentRequests := sentRequests + [num];
      raised := WriteJson(num, outcome);
      requests := requests[num := requests[num].(returned := !raised)];
      assert requests == s.outgoing[num := Outgoing(None, 0, handlers, handlers, !raised)];
      SentIs(s, num, arguments, handlers, Effective(closed, outcome), Now());
    }

    // ----- the handler queue -----

    /** _enqueue_handlers */
    method EnqueueHandlers(e: Entry)
      modifies this`handlerQueue, this`handlerThread, this`runners, this`spawned, this`waiters, this`log
      ensures QueueNow() == Push(old(QueueNow()), e) && waiters == NotifyAll(old(waiters))
    {
      handlerQueue := handlerQueue + [e];
      log := log + [e];
      waiters := NotifyAll(waiters);
      runners := Awaken(runners);
      if |handlerQueue| != 0 && handlerThread.None? {
        handlerThread := Some(spawned);
        runners := runners[spawned := Top];
        spawned := spawned + 1;
      }
    }

    /** The locked section of _run_handlers: waits, snapshots the queue, or quits. */
    method SnapshotHandlers(t: nat, seenClosed: bool) returns (handlers: seq<Entry>, quit: bool)
      requires t in runners && runners[t] == Checked(seenClosed) && (seenClosed ==> Ended(parser))
      modifies this
      ensures Now() == old(Now()).(queue := Take(old(Now()).queue, t))
      ensures handlers == old(handlerQueue) && handlerQueue == []
      ensures quit <==> seenClosed && handlers == []
      ensures quit ==> handlerThread.None? && t !in runners
    {
      handlers, quit := handlerQueue, false;
      if !seenClosed && |handlerQueue| == 0 {
        runners := runners[t := Waiting(false)];
      } else {
        handlerQueue := [];
        if seenClosed && |handlers| == 0 {
          handlerThread := None;
          runners := runners - {t};
          quit := true;
        } else {
          runners := runners[t := Dispatching(seenClosed, handlers)];
        }
      }
    }

    /** The first locked section of _run_handlers. */
    method SeeWhetherClosed(t: nat) returns (seenClosed: bool)
      requires t in runners && runners[t] == Top
      modifies this`runners
      ensures seenClosed == closed && Now() == RunnerStep(old(Now()), t, Check)
    {
      seenClosed := closed;
      runners := runners[t := Checked(seenClosed)];
    }

    /** Where wait() returns: the snapshot is taken without looking at the channel again. */
    method WakeUp(t: nat) returns (handlers: seq<Entry>)
      requires t in runners && runners[t] == Waiting(true)
      modifies this
      ensures Now() == RunnerStep(old(Now()), t, Wake) && handlers == old(handlerQueue)
    {
      handlers := handlerQueue;
      handlerQueue := [];
      runners := runners[t := Dispatching(false, handlers)];
    }

    /** The loop over the snapshot hands each entry to its handler. */
    method HandOutAll(t: nat, seenClosed: bool, handlers: seq<Entry>)
      requires t in runners && runners[t] == Dispatching(seenClosed, handlers)
      modifies this
      ensures Now() == HandAllOut(old(Now()), t)
    {
      var k := 0;
      while k < |handlers|
        invariant 0 <= k <= |handlers|
        invariant t in runners && runners[t] == Dispatching(seenClosed, handlers[k..])
        invariant HandAllOut(Now(), t) == HandAllOut(old(Now()), t)
      {
        ghost var s := Now();
        assert handlers[k..][1..] == handlers[k + 1..];
        HandOutOne(t, seenClosed, handlers[k], handlers[k + 1..]);
        assert HandAllOut(s, t) == HandAllOut(Now(), t);
        k := k + 1;
      }
      runners := runners[t := Top];
    }

    method HandOutOne(t: nat, seenClosed: bool, e: Entry, ghost rest: seq<Entry>)
      requires t in runners && runners[t] == Dispatching(seenClosed, [e] + rest)
      modifies this`taken, this`incoming, this`runners
      ensures Now() == RunnerStep(old(Now()), t, HandOut)
      ensures t in runners && runners[t] == Dispatching(seenClosed, rest)
    {
      taken := taken + [e];
      if e.RequestEntry? {
        incoming := incoming[e.at := Handling];
      }
      runners := runners[t := Dispatching(seenClosed, rest)];
    }

    // ----- incoming messages -----

    /** Event._parse */
    method ParseEvent(m: Message)
      requires m.Event? && parser.Reading?
      modifies this
      ensures Now() == ParserStep(old(Now()), Parse(m))
    {
      received := received + [m];
      EnqueueHandlers(EventEntry(|received| - 1));
    }

    /** Request._parse */
    method ParseRequest(m: Message)
      requires m.Request? && parser.Reading?
      modifies this
      ensures Now() == ParserStep(old(Now()), Parse(m))
    {
      incoming := incoming[|received| := Queued];
      received := received + [m];
      EnqueueHandlers(RequestEntry(|received| - 1));
    }

    /** Response._parse, up to the end of its first locked section. */
    method ParseResponse(m: Message) returns (known: bool)
      requires m.Response? && parser.Reading?
      modifies this
      ensures Now() == ParserStep(old(Now()), Parse(m))
      ensures known <==> m.requestNum in old(sentRequests)
    {
      received := received + [m];
      if m.requestNum !in sentRequests {
        RemoveAbsent(sentRequests, m.requestNum);
      }
      known := PopRequest(m.requestNum);
      parser := if known then Popped(m.requestNum, m.body) else PoppedUnknown(m.requestNum);
    }

    /** The rest of Response._parse, for a response that answers a request of the table. */
    method RecordResponse(n: nat, body: Payload)
      requires parser == Popped(n, body) && n in requests
      modifies this
      ensures Now() == ParserStep(old(Now()), FinishResponse)
    {
      SetResponse(n, Received(body));
      parser := Reading;
    }

    /** The rest of Response._parse, for one that answers none: its made-up request has no
        handlers, but they are enqueued all the same. */
    method ReportUnknownResponse(n: nat)
      requires parser == PoppedUnknown(n)
      modifies this
      ensures Now() == ParserStep(old(Now()), FinishResponse)
    {
      EnqueueHandlers(UnknownResponseEntry(n));
      parser := Reading;
    }

    // ----- responses -----

    /** wait_for_response, up to the first wait() or its return. */
    method WaitForResponse(ghost id: nat, n: nat) returns (done: bool)
      requires id !in waiters && n in requests
      modifies this`waiters
      ensures Now() == ClientStep(old(Now()), WaitFor(id, n))
      ensures done <==> requests[n].response.Some?
    {
      done := requests[n].response.Some?;
      if !done {
        waiters := waiters[id := Waiter(n, false)];
      }
    }

    /** wait_for_response, from where wait() returns. */
    method LookAgain(ghost id: nat, n: nat) returns (done: bool)
      requires id in waiters && waiters[id] == Waiter(n, true) && n in requests
      modifies this`waiters
      ensures Now() == ClientStep(old(Now()), WaitAgain(id))
      ensures done <==> requests[n].response.Some?
    {
      done := requests[n].response.Some?;
      waiters := if done then waiters - {id} else waiters[id := Waiter(n, false)];
    }

    /** _enqueue_response_handlers */
    method EnqueueResponseHandlers(n: nat)
      requires n in requests
      modifies this
      ensures var s, o := old(Now()), old(requests)[n];
              Now() == if o.response.None? then s
                       else Enqueue(s.(outgoing := s.outgoing[n := o.(pending := [])]),
                                    ResponseEntry(n, o.response.value, o.pending))
    {
      var o := requests[n];
      if o.response.Some? {
        EnqueueHandlers(ResponseEntry(n, o.response.value, o.pending));
        requests := requests[n := o.(pending := [])];
      }
    }

    method OnResponse(n: nat, handler: nat)
      requires n in requests
      modifies this
      ensures Now() == Register(old(Now()), n, handler)
    {
      var o := requests[n];
      requests := requests[n := o.(registered := o.registered + [handler], pending := o.pending + [handler])];
      EnqueueResponseHandlers(n);
    }

    /** The second locked section of Response._parse. */
    method SetResponse(n: nat, reply: Reply)
      requires n in requests
      modifies this
      ensures Now() == Settle(old(Now()), n, reply)
    {
      var o := requests[n];
      requests := requests[n := o.(response := Some(reply), writes := o.writes + 1)];
      EnqueueResponseHandlers(n);
    }

    /** The first locked section of Response._parse. */
    method PopRequest(n: nat) returns (known: bool)
      modifies this`sentRequests
      ensures known <==> n in old(sentRequests)
      ensures sentRequests == Remove(old(sentRequests), n)
    {
      known := n in sentRequests;
      var k := 0;
      while k < |sentRequests| && sentRequests[k] != n
        invariant k <= |sentRequests|
        invariant n !in sentRequests[..k]
      {
        k := k + 1;
      }
      RemoveAt(sentRequests, n, k);
      if k < |sentRequests| {
        sentRequests := sentRequests[..k] + sentRequests[k + 1..];
      }
    }

    /** Response._parse of a made-up response to the pending request `n`. */
    method SynthesizeResponse(n: nat)
      requires n in requests
      modifies this
      ensures Now() == Settle(Pop(old(Now()), n), n, NoMoreMessages)
      ensures requests.Keys == old(requests.Keys)
    {
      var known := PopRequest(n);
      SetResponse(n, NoMoreMessages);
    }

    method SynthesizeResponses(snapshot: seq<nat>)
      requires forall n <- snapshot :: n in requests
      modifies this
      ensures Now() == SettleAll(old(Now()), snapshot)
    {
      ghost var s := Now();
      var k := 0;
      while k < |snapshot|
        invariant 0 <= k <= |snapshot|
        invariant forall n <- snapshot :: n in requests
        invariant SettleAll(Now(), snapshot[k..]) == SettleAll(s, snapshot)
      {
        SynthesizeResponse(snapshot[k]);
        assert snapshot[k..][1..] == snapshot[k + 1..];
        k := k + 1;
      }
    }

    method Close()
      modifies this`closed
      ensures closed
    {
      if !closed {
        closed := true;
      }
    }

    method EndMessageLoop()
      modifies this
      ensures Now() == Enqueue(old(Now()), DisconnectEntry).(closed := true, parser := Finished)
    {
      EnqueueHandlers(DisconnectEntry);
      Close();
      parser := Finished;
    }

    /** What follows NoMoreMessages in _parse_incoming_messages, under one hold of the lock. */
    method Disconnect()
      requires ParserEnabled(Now(), ParserAction.Disconnect)
      modifies this
      ensures Now() == LoseConnection(old(Now()))
    {
      SynthesizeResponses(sentRequests);
      EndMessageLoop();
    }
  }

  lemma {:induction false} RemoveAt(ns: seq<nat>, n: nat, k: nat)
    requires k <= |ns| && n !in ns[..k] && (k < |ns| ==> ns[k] == n)
    ensures Remove(ns, n) == if k < |ns| then ns[..k] + ns[k + 1..] else ns
  {
    if k > 0 {
      assert ns[0] == ns[..k][0];
      assert ns[1..][..k - 1] == ns[..k][1..];
      RemoveAt(ns[1..], n, k - 1);
    }
  }

  /** The HandOut steps of handler thread `t` until its snapshot is used up. */
  function HandAllOut(s: State, t: nat): State
    requires t in s.queue.runners && s.queue.runners[t].Dispatching?
    decreases |s.queue.runners[t].rest|
  {
    var s1 := RunnerStep(s, t, HandOut);
    if s.queue.runners[t].rest == [] then s1 else HandAllOut(s1, t)
  }

  /** The fields that send_request changes are those of the step. */
  lemma SentIs(s: State, num: nat, arguments: Payload, handlers: seq<nat>, o: Outcome, s': State)
    requires num in s.drafts && s.drafts[num] == RequestDraft(arguments, handlers)
    requires s' == s.(drafts := s.drafts - {num}, sent := s.sent + [num],
                      wire := s.wire + if Delivers(o) then [Framed(num, s.drafts[num])] else [],
                      outgoing := s.outgoing[num := Outgoing(None, 0, handlers, handlers, o.Written?)])
    ensures s' == WriteDraft(s, num, o)
  {
    assert s.wire + [] == s.wire;
  }
}
