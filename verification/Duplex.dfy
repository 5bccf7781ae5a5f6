/**
 Two channels joined by two FIFO pipes, under any interleaving of their steps.

 What one channel writes is appended to its outgoing pipe; its parser takes messages from
 the front of the other pipe. Either side may stop reading at any time.
 */
module Duplex {
  import opened Options
  import opened Channel
  import opened ChannelQueue
  import opened ChannelTable
  import opened ChannelWire
  import opened ChannelRuns

  datatype Pair = Pair(left: State, right: State, toRight: seq<Message>, toLeft: seq<Message>)

  const START := Pair(INIT, INIT, [], [])

  function Swap(d: Pair): Pair {
    Pair(d.right, d.left, d.toLeft, d.toRight)
  }

  predicate LeftEnabled(d: Pair, a: Action) {
    && Enabled(d.left, a)
    && (a.Parser? && a.parser.Parse? ==> d.toLeft != [] && a.parser.message == d.toLeft[0])
  }

  function LeftStep(d: Pair, a: Action): Pair
    requires LeftEnabled(d, a)
  {
    var left := Step(d.left, a);
    var written := if |d.left.wire| <= |left.wire| then left.wire[|d.left.wire|..] else [];
    Pair(left, d.right, d.toRight + written, if a.Parser? && a.parser.Parse? then d.toLeft[1..] else d.toLeft)
  }

  ghost predicate LeftMoves(d: Pair, d': Pair) {
    exists a: Action :: LeftEnabled(d, a) && d' == LeftStep(d, a)
  }

  /** Either side takes a step. */
  ghost predicate Moves(d: Pair, d': Pair) {
    LeftMoves(d, d') || LeftMoves(Swap(d), Swap(d'))
  }

  ghost predicate MovesAt(run: seq<Pair>, i: nat)
    requires 0 < i < |run|
  {
    Moves(run[i - 1], run[i])
  }

  ghost predicate IsDuplexRun(run: seq<Pair>) {
    && run != []
    && run[0] == START
    && forall i | 0 < i < |run| :: MovesAt(run, i)
  }

  // ----- the invariant -----

  /** Nothing is lost, duplicated or reordered between what was sent and what is still to be
      received. */
  predicate Fifo(d: Pair) {
    && d.left.wire == d.right.received + d.toRight
    && d.right.wire == d.left.received + d.toLeft
  }

  /** A response that arrived has found its request. */
  predicate Found(s: State, m: Message)
    requires m.Response?
  {
    && m.requestNum in s.outgoing
    && (s.parser == Popped(m.requestNum, m.body) || s.outgoing[m.requestNum].response == Some(Received(m.body)))
  }

  ghost predicate AllFound(s: State) {
    forall m <- s.received | m.Response? :: Found(s, m)
  }

  ghost predicate PairInv(d: Pair) {
    && Inv(d.left) && Inv(d.right) && Fifo(d)
    && AllFound(d.left) && AllFound(d.right)
  }

  lemma ParserHistories(s: State, a: ParserAction)
    requires ParserEnabled(s, a)
    ensures ParserStep(s, a).wire == s.wire
    ensures ParserStep(s, a).received == if a.Parse? then s.received + [a.message] else s.received
  {
    if a.Disconnect? {
      SettleAllFrame(s, s.sent);
    }
  }

  /** How a step changes the two histories that the pipes connect. */
  lemma StepHistories(s: State, a: Action)
    requires Enabled(s, a)
    ensures s.wire <= Step(s, a).wire
    ensures Step(s, a).received ==
              if a.Parser? && a.parser.Parse? then s.received + [a.parser.message] else s.received
  {
    if a.Parser? {
      ParserHistories(s, a.parser);
    }
  }

  lemma StepFifo(d: Pair, a: Action)
    requires Fifo(d) && LeftEnabled(d, a)
    ensures Fifo(LeftStep(d, a))
  {
    StepHistories(d.left, a);
    FifoMoves(d, Step(d.left, a), a.Parser? && a.parser.Parse?);
  }

  /** What the left writes joins one pipe, and what it receives is taken from the other. */
  lemma FifoMoves(d: Pair, left: State, receives: bool)
    requires Fifo(d) && d.left.wire <= left.wire && (receives ==> d.toLeft != [])
    requires left.received == if receives then d.left.received + [d.toLeft[0]] else d.left.received
    ensures Fifo(Pair(left, d.right, d.toRight + left.wire[|d.left.wire|..],
                      if receives then d.toLeft[1..] else d.toLeft))
  {
    assert left.wire == d.left.wire + left.wire[|d.left.wire|..];
    if receives {
      assert d.right.wire == d.left.received + ([d.toLeft[0]] + d.toLeft[1..]);
    }
  }

  /** The request that response `m` on the right's wire answers: its position in what the
      right received, and so on the left's wire. */
  lemma Answered(d: Pair, m: Message) returns (at: nat)
    requires Fifo(d) && TrafficOk(d.right) && m in d.right.wire && m.Response?
    ensures at < |d.right.received| && at < |d.left.wire| && d.left.wire[at] == d.right.received[at]
    ensures Answers(d.right.incoming, d.right.received, at, m)
  {
    assert exists at <- d.right.incoming :: Answers(d.right.incoming, d.right.received, at, m);
    at :| at in d.right.incoming && Answers(d.right.incoming, d.right.received, at, m);
  }

  /** No two responses on the right's wire answer the same request. */
  lemma OneAnswer(d: Pair, j: nat, k: nat)
    requires Fifo(d) && WireOk(d.left.wire, d.left.drafts, d.left.next) && TrafficOk(d.right)
    requires j < k < |d.right.wire| && d.right.wire[j].Response? && d.right.wire[k].Response?
    ensures d.right.wire[j].requestNum != d.right.wire[k].requestNum
  {
    var at := Answered(d, d.right.wire[j]);
    var at' := Answered(d, d.right.wire[k]);
    assert d.left.wire[at].num == d.left.wire[at'].num ==> at == at';
  }

  /** A request whose next response is still in the pipe has got no response before it. */
  lemma NextIsFirst(d: Pair, body: Payload)
    requires Fifo(d) && WireOk(d.left.wire, d.left.drafts, d.left.next) && TrafficOk(d.right)
    requires d.toLeft != [] && d.toLeft[0].Response?
    ensures !HasReply(d.left.received, d.toLeft[0].requestNum, body)
  {
    var k := |d.left.received|;
    assert d.right.wire[k] == d.toLeft[0];
    forall j | 0 <= j < k && d.left.received[j].Response?
      ensures d.left.received[j].requestNum != d.toLeft[0].requestNum
    {
      assert d.right.wire[j] == d.left.received[j];
      OneAnswer(d, j, k);
    }
  }

  /** The next response that the left reads belongs to a request that is still pending. */
  lemma NextIsPending(d: Pair)
    requires Joined(d)
    requires d.left.parser.Reading? && d.toLeft != [] && d.toLeft[0].Response?
    ensures d.toLeft[0].requestNum in d.left.sent
  {
    assert d.toLeft[0] in d.right.wire;
    var at := Answered(d, d.toLeft[0]);
    assert d.left.wire[at] in d.left.wire;
    var o := d.left.outgoing[d.toLeft[0].requestNum];
    if o.response.Some? && o.response.value.Received? {
      NextIsFirst(d, o.response.value.body);
    }
  }

  lemma ClientFound(s: State, a: ClientAction, m: Message)
    requires NumbersOk(s.outgoing, s.drafts, s.next) && ClientEnabled(s, a) && m.Response? && Found(s, m)
    ensures Found(ClientStep(s, a), m)
  {
    ClientEvolves(s, a, m.requestNum);
  }

  /** What was found stays found, whatever the parser does next. */
  lemma ParserFound(s: State, a: ParserAction, m: Message)
    requires TableOk(s.sent, s.outgoing, s.parser) && ParserEnabled(s, a) && m.Response? && Found(s, m)
    ensures Found(ParserStep(s, a), m)
  {
    ParserEvolves(s, a, m.requestNum);
  }

  /** What the invariant says about the tables of the reading side. */
  ghost predicate Joined(d: Pair) {
    && Fifo(d) && TrafficOk(d.right)
    && WireOk(d.left.wire, d.left.drafts, d.left.next) && RequestsOk(d.left.wire, d.left.outgoing)
    && NumbersOk(d.left.outgoing, d.left.drafts, d.left.next)
    && TableOk(d.left.sent, d.left.outgoing, d.left.parser)
    && RepliesOk(d.left.outgoing, d.left.parser, d.left.received)
    && DisconnectOk(d.left.outgoing, d.left.closed, d.left.parser)
  }

  lemma NewFound(d: Pair)
    requires Joined(d) && d.left.parser.Reading? && d.toLeft != [] && d.toLeft[0].Response?
    ensures Found(ParseMessage(d.left, d.toLeft[0]), d.toLeft[0])
  {
    NextIsPending(d);
  }

  lemma ParseFound(d: Pair, p: ParserAction)
    requires Joined(d) && AllFound(d.left) && LeftEnabled(d, Parser(p))
    ensures AllFound(ParserStep(d.left, p))
  {
    var s' := ParserStep(d.left, p);
    ParserHistories(d.left, p);
    if p.Parse? && p.message.Response? {
      NewFound(d);
    }
    forall m <- d.left.received | m.Response? ensures Found(s', m) {
      ParserFound(d.left, p, m);
    }
  }

  lemma LeftFound(d: Pair, a: Action)
    requires Joined(d) && AllFound(d.left) && LeftEnabled(d, a)
    ensures AllFound(Step(d.left, a))
  {
    match a
    case Client(c) =>
      forall m <- ClientStep(d.left, c).received | m.Response? ensures Found(ClientStep(d.left, c), m) {
        ClientFound(d.left, c, m);
      }
    case Parser(p) => ParseFound(d, p);
    case Runner(t, r) =>
  }

  lemma LeftInv(d: Pair, a: Action)
    requires PairInv(d) && LeftEnabled(d, a)
    ensures PairInv(LeftStep(d, a))
  {
    StepInv(d.left, a);
    StepFifo(d, a);
    LeftFound(d, a);
  }

  lemma MoveInv(d: Pair, d': Pair)
    requires PairInv(d)
    ensures LeftMoves(d, d') ==> PairInv(d')
  {
    if LeftMoves(d, d') {
      var a :| LeftEnabled(d, a) && d' == LeftStep(d, a);
      LeftInv(d, a);
    }
  }

  lemma StartInv()
    ensures PairInv(START)
  {
    InitInv();
  }

  lemma {:induction false} DuplexInv(run: seq<Pair>, i: nat)
    requires IsDuplexRun(run) && i < |run|
    ensures PairInv(run[i])
  {
    if i == 0 {
      StartInv();
    } else {
      DuplexInv(run, i - 1);
      assert MovesAt(run, i);
      MoveInv(run[i - 1], run[i]);
      MoveInv(Swap(run[i - 1]), Swap(run[i]));
    }
  }

  // ----- where a request is -----

  datatype Place = InPipe | InQueue | WithHandler | ReplyInPipe | Arrived

  predicate RepliedIn(ms: seq<Message>, n: nat) {
    exists m <- ms :: m.Response? && m.requestNum == n
  }

  /** Whether the request at position `p` of the left's wire is in `place`. */
  predicate At(d: Pair, p: nat, place: Place)
    requires p < |d.left.wire|
  {
    var n := d.left.wire[p].num;
    match place
    case InPipe => p >= |d.right.received|
    case InQueue => p < |d.right.received| && RequestEntry(p) in Rest(d.right.queue) + d.right.queue.entries
    case WithHandler => p < |d.right.received| && RequestEntry(p) in d.right.queue.taken && !RepliedIn(d.right.wire, n)
    case ReplyInPipe => RepliedIn(d.toLeft, n)
    case Arrived => RepliedIn(d.left.received, n)
  }

  /** A response on the right's wire to the request at `p` means that request is answered. */
  lemma RepliedIsAnswered(d: Pair, p: nat)
    requires Joined(d) && p < |d.left.wire| && d.left.wire[p].Request?
    requires RepliedIn(d.right.wire, d.left.wire[p].num)
    ensures p in d.right.incoming && d.right.incoming[p].Answered?
  {
    var m :| m in d.right.wire && m.Response? && m.requestNum == d.left.wire[p].num;
    var at := Answered(d, m);
    assert d.left.wire[at].num == d.left.wire[p].num;
    assert at == p;
  }

  /** The response to a request is in the pipe or has arrived, not both. */
  lemma ReplyIsOnce(d: Pair, n: nat)
    requires Joined(d)
    ensures RepliedIn(d.right.wire, n) <==> RepliedIn(d.left.received, n) || RepliedIn(d.toLeft, n)
    ensures !(RepliedIn(d.left.received, n) && RepliedIn(d.toLeft, n))
  {
    assert forall m :: m in d.right.wire <==> m in d.left.received || m in d.toLeft;
    forall j, k | 0 <= j < |d.left.received| && 0 <= k < |d.toLeft|
                  && d.left.received[j].Response? && d.toLeft[k].Response?
      ensures !(d.left.received[j].requestNum == n && d.toLeft[k].requestNum == n)
    {
      assert d.right.wire[j] == d.left.received[j] && d.right.wire[|d.left.received| + k] == d.toLeft[k];
      OneAnswer(d, j, |d.left.received| + k);
    }
  }

  /** A request the right has read is either still queued or handed to its handler. */
  lemma QueuedOrTaken(s: State, p: nat)
    requires QueueOk(s.queue, s.closed, s.parser) && ArrivalsOk(s.queue.log, s.received)
    requires IsRequestAt(s.received, p)
    ensures RequestEntry(p) in s.queue.taken <==> RequestEntry(p) !in Rest(s.queue) + s.queue.entries
  {
    var q := s.queue;
    var e := RequestEntry(p);
    var waiting := Rest(q) + q.entries;
    assert q.log == q.taken + waiting;
    assert e in q.log;
    forall j, k | 0 <= j < |q.taken| && 0 <= k < |waiting| ensures !(q.taken[j] == e && waiting[k] == e) {
      assert q.log[j] == q.taken[j] && q.log[|q.taken| + k] == waiting[k];
    }
  }

  lemma RepliedIsTaken(d: Pair, p: nat)
    requires Joined(d) && p < |d.left.wire| && d.left.wire[p].Request?
    requires RepliedIn(d.right.wire, d.left.wire[p].num)
    ensures p < |d.right.received| && RequestEntry(p) in d.right.queue.taken
  {
    RepliedIsAnswered(d, p);
    assert IsRequestAt(d.right.received, p);
    assert !d.right.incoming[p].Queued?;
  }

  lemma PlaceOf(d: Pair, p: nat) returns (place: Place)
    requires Joined(d) && p < |d.left.wire| && d.left.wire[p].Request?
    requires QueueOk(d.right.queue, d.right.closed, d.right.parser) && ArrivalsOk(d.right.queue.log, d.right.received)
    ensures forall other :: At(d, p, other) <==> other == place
  {
    var n := d.left.wire[p].num;
    ReplyIsOnce(d, n);
    if RepliedIn(d.right.wire, n) {
      RepliedIsTaken(d, p);
    }
    if p < |d.right.received| {
      assert d.right.received[p] == d.left.wire[p];
      QueuedOrTaken(d.right, p);
    }
    place := Choose(d, p);
  }

  /** Five places that exclude one another. */
  lemma Choose(d: Pair, p: nat) returns (place: Place)
    requires p < |d.left.wire|
    requires var n := d.left.wire[p].num;
             var e := RequestEntry(p);
             && (RepliedIn(d.right.wire, n) <==> RepliedIn(d.left.received, n) || RepliedIn(d.toLeft, n))
             && !(RepliedIn(d.left.received, n) && RepliedIn(d.toLeft, n))
             && (RepliedIn(d.right.wire, n) ==> p < |d.right.received| && e in d.right.queue.taken)
             && (p < |d.right.received| ==>
                   (e in d.right.queue.taken <==> e !in Rest(d.right.queue) + d.right.queue.entries))
    ensures forall other :: At(d, p, other) <==> other == place
  {
    var n := d.left.wire[p].num;
    place := if p >= |d.right.received| then InPipe
             else if RequestEntry(p) !in d.right.queue.taken then InQueue
             else if RepliedIn(d.toLeft, n) then ReplyInPipe
             else if RepliedIn(d.left.received, n) then Arrived
             else WithHandler;
  }

  /** In every reachable state of the two channels, each request whose send_request returned is
      in exactly one place on its way there and back. */
  lemma InExactlyOnePlace(run: seq<Pair>, i: nat, n: nat) returns (p: nat, place: Place)
    requires IsDuplexRun(run) && i < |run|
    requires n in run[i].left.outgoing && run[i].left.outgoing[n].returned
    ensures p < |run[i].left.wire| && run[i].left.wire[p].Request? && run[i].left.wire[p].num == n
    ensures forall other :: At(run[i], p, other) <==> other == place
  {
    DuplexInv(run, i);
    var wire := run[i].left.wire;
    assert OnWire(wire, n);
    var m :| m in wire && m.Request? && m.num == n;
    p :| 0 <= p < |wire| && wire[p] == m;
    place := PlaceOf(run[i], p);
  }

  /** A response that was not made up carries exactly the body that the other side gave when it
      responded to that very request. */
  lemma BodyIsTheOneGiven(run: seq<Pair>, i: nat, n: nat) returns (at: nat)
    requires IsDuplexRun(run) && i < |run| && n in run[i].left.outgoing
    requires run[i].left.outgoing[n].response.Some? && run[i].left.outgoing[n].response.value.Received?
    ensures var d := run[i];
            && at < |d.left.wire| && d.left.wire[at].Request? && d.left.wire[at].num == n
            && at < |d.right.received| && d.right.received[at] == d.left.wire[at]
            && at in d.right.incoming && d.right.incoming[at].Answered?
            && d.right.incoming[at].body == d.left.outgoing[n].response.value.body
  {
    DuplexInv(run, i);
    var d := run[i];
    var body := d.left.outgoing[n].response.value.body;
    assert HasReply(d.left.received, n, body);
    var m :| m in d.left.received && m.Response? && m.requestNum == n && m.body == body;
    assert m in d.right.wire;
    at := Answered(d, m);
  }

  /** A response that has arrived is recorded, or the parser is about to record it. */
  lemma ArrivedIsRecorded(run: seq<Pair>, i: nat, m: Message)
    requires IsDuplexRun(run) && i < |run| && m in run[i].left.received && m.Response?
    ensures m.requestNum in run[i].left.outgoing
    ensures run[i].left.outgoing[m.requestNum].response == Some(Received(m.body))
            || (run[i].left.parser == Popped(m.requestNum, m.body) && run[i].left.outgoing[m.requestNum].response.None?)
  {
    DuplexInv(run, i);
    assert Found(run[i].left, m);
  }

  function SwapAll(run: seq<Pair>): seq<Pair> {
    seq(|run|, i requires 0 <= i < |run| => Swap(run[i]))
  }

  /** The two sides are alike: what holds of the left's requests holds of the right's. */
  lemma SidesAreAlike(run: seq<Pair>)
    requires IsDuplexRun(run)
    ensures IsDuplexRun(SwapAll(run))
  {
    var other := SwapAll(run);
    forall i | 0 < i < |other| ensures MovesAt(other, i) {
      assert MovesAt(run, i);
      MovesSwapped(run[i - 1], run[i]);
      assert other[i - 1] == Swap(run[i - 1]) && other[i] == Swap(run[i]);
    }
  }

  lemma MovesSwapped(d: Pair, d': Pair)
    ensures Moves(Swap(d), Swap(d')) <==> Moves(d, d')
  {
    assert Swap(Swap(d)) == d && Swap(Swap(d')) == d';
  }
}
