/** What two joined channels bring to each other, from what their callers gave them to send. */
module DuplexHistory {
  import opened Options
  import opened Histories
  import opened Channel
  import opened ChannelWire
  import opened ChannelHistory
  import opened Duplex

  /** A step of one of the two sides. */
  datatype Move = Move(left: bool, action: Action)

  function SideOf(d: Pair, left: bool): State {
    if left then d.left else d.right
  }

  /** The pair as the one side sees it, itself on the left. */
  function Facing(d: Pair, left: bool): Pair {
    if left then d else Swap(d)
  }

  predicate Schedules(run: seq<Pair>, moves: seq<Move>) {
    && |run| == |moves| + 1
    && run[0] == START
    && forall j | 0 <= j < |moves| :: Takes(run, moves, j)
  }

  predicate Takes(run: seq<Pair>, moves: seq<Move>, j: nat)
    requires j < |moves| && |run| == |moves| + 1
  {
    var m := moves[j];
    && LeftEnabled(Facing(run[j], m.left), m.action)
    && Facing(run[j + 1], m.left) == LeftStep(Facing(run[j], m.left), m.action)
  }

  lemma ScheduledIsRun(run: seq<Pair>, moves: seq<Move>)
    requires Schedules(run, moves)
    ensures IsDuplexRun(run)
  {
    forall i | 0 < i < |run| ensures MovesAt(run, i) {
      assert Takes(run, moves, i - 1);
    }
  }

  lemma MoveOf(d: Pair, d': Pair) returns (m: Move)
    requires Moves(d, d')
    ensures LeftEnabled(Facing(d, m.left), m.action)
    ensures Facing(d', m.left) == LeftStep(Facing(d, m.left), m.action)
  {
    if LeftMoves(d, d') {
      var a :| LeftEnabled(d, a) && d' == LeftStep(d, a);
      m := Move(true, a);
    } else {
      var a :| LeftEnabled(Swap(d), a) && Swap(d') == LeftStep(Swap(d), a);
      m := Move(false, a);
    }
  }

  /** Every run has its moves. */
  lemma {:induction false} RunIsScheduled(run: seq<Pair>) returns (moves: seq<Move>)
    requires IsDuplexRun(run)
    ensures Schedules(run, moves)
    decreases |run|
  {
    moves := [];
    if |run| > 1 {
      var n := |run| - 1;
      forall i | 0 < i < n ensures MovesAt(run[..n], i) {
        assert MovesAt(run, i);
      }
      var before := RunIsScheduled(run[..n]);
      assert MovesAt(run, n);
      var m := MoveOf(run[n - 1], run[n]);
      moves := before + [m];
      ScheduleNext(run, before, m);
    }
  }

  lemma ScheduleNext(run: seq<Pair>, moves: seq<Move>, m: Move)
    requires |run| > 1 && Schedules(run[..|run| - 1], moves)
    requires var d, d' := run[|run| - 2], run[|run| - 1];
             LeftEnabled(Facing(d, m.left), m.action) && Facing(d', m.left) == LeftStep(Facing(d, m.left), m.action)
    ensures Schedules(run, moves + [m])
  {
    forall j | 0 <= j < |moves| + 1 ensures Takes(run, moves + [m], j) {
      if j < |moves| {
        assert Takes(run[..|run| - 1], moves, j);
      }
    }
  }

  /** What one side did before state `i`, with the states it did it in. */
  function PastOf(run: seq<Pair>, moves: seq<Move>, i: nat, left: bool): seq<Moment>
    requires i <= |moves| && |run| == |moves| + 1
  {
    if i == 0 then []
    else
      PastOf(run, moves, i - 1, left)
      + if moves[i - 1].left == left then [(SideOf(run[i - 1], left), moves[i - 1].action)] else []
  }

  /** A move is a step of the side that makes it, and leaves the other alone. */
  lemma SideMoves(run: seq<Pair>, moves: seq<Move>, j: nat, left: bool)
    requires Schedules(run, moves) && j < |moves|
    ensures var s, s' := SideOf(run[j], left), SideOf(run[j + 1], left);
            if moves[j].left == left then Enabled(s, moves[j].action) && s' == Step(s, moves[j].action) else s' == s
  {
    assert Takes(run, moves, j);
  }

  lemma {:induction false} SideGiven(run: seq<Pair>, moves: seq<Move>, i: nat, left: bool)
    requires Schedules(run, moves) && i <= |moves|
    ensures StateGiven(SideOf(run[i], left), Given(PastOf(run, moves, i, left)))
  {
    if i > 0 {
      SideGiven(run, moves, i - 1, left);
      SideMoves(run, moves, i - 1, left);
      var past, s, a := PastOf(run, moves, i - 1, left), SideOf(run[i - 1], left), moves[i - 1].action;
      if moves[i - 1].left == left {
        StepGiven(s, a, Given(past));
        CollectedNext(past, (s, a), GivenBy);
      } else {
        assert past + [] == past;
      }
    }
  }

  /** Whatever one side has received is exactly what the other was given to send under that number:
      the arguments of a request, the body of an event or of a response. */
  lemma ReceivedIsGiven(run: seq<Pair>, moves: seq<Move>, i: nat, left: bool)
    requires Schedules(run, moves) && i <= |moves|
    ensures var given := Given(PastOf(run, moves, i, left));
            forall m <- SideOf(run[i], !left).received :: 1 <= m.num <= |given| && m == given[m.num - 1]
  {
    ScheduledIsRun(run, moves);
    DuplexInv(run, i);
    SideGiven(run, moves, i, left);
    forall m <- SideOf(run[i], !left).received ensures m in SideOf(run[i], left).wire {
      var k :| 0 <= k < |SideOf(run[i], !left).received| && SideOf(run[i], !left).received[k] == m;
      assert SideOf(run[i], left).wire[k] == m;
    }
  }

  /** A given message has a move that gave it. */
  lemma {:induction false} GivenAt(run: seq<Pair>, moves: seq<Move>, i: nat, left: bool, m: Message) returns (j: nat)
    requires Schedules(run, moves) && i <= |moves| && m in Given(PastOf(run, moves, i, left))
    ensures j < i && moves[j].left == left && GivenBy((SideOf(run[j], left), moves[j].action)) == [m]
    decreases i
  {
    assert i > 0;
    var past, p := PastOf(run, moves, i - 1, left), (SideOf(run[i - 1], left), moves[i - 1].action);
    if m in Given(past) {
      j := GivenAt(run, moves, i - 1, left, m);
    } else {
      j := i - 1;
      assert past + [] == past;
      CollectedNext(past, p, GivenBy);
    }
  }

  /** A response that one side has received was given by a handler of the other, for a request that
      it had received under that number. */
  lemma ResponseIsGiven(run: seq<Pair>, moves: seq<Move>, i: nat, m: Message) returns (k: nat, at: nat)
    requires Schedules(run, moves) && i <= |moves| && m in run[i].left.received && m.Response?
    ensures k < i && moves[k] == Move(false, Client(BeginResponse(at, m.body)))
    ensures IsRequestAt(run[k].right.received, at) && run[k].right.received[at].num == m.requestNum
  {
    ReceivedIsGiven(run, moves, i, false);
    k := GivenAt(run, moves, i, false, m);
    SideMoves(run, moves, k, false);
    at := moves[k].action.client.at;
  }

  /** A request that one side has received was begun on the other, under that number. */
  lemma RequestIsGiven(run: seq<Pair>, moves: seq<Move>, i: nat, m: Message) returns (j: nat, handlers: seq<nat>)
    requires Schedules(run, moves) && i <= |moves| && m in run[i].right.received && m.Request?
    ensures j < i && moves[j] == Move(true, Client(BeginRequest(m.arguments, handlers)))
    ensures run[j].left.next == m.num
  {
    ReceivedIsGiven(run, moves, i, true);
    j := GivenAt(run, moves, i, true, m);
    handlers := moves[j].action.client.handlers;
  }

  lemma AnswerArrived(run: seq<Pair>, i: nat, n: nat, body: Payload) returns (m: Message)
    requires IsDuplexRun(run) && i < |run| && n in run[i].left.outgoing
    requires run[i].left.outgoing[n].response == Some(Received(body))
    ensures m in run[i].left.received && m.Response? && m.requestNum == n && m.body == body
  {
    DuplexInv(run, i);
    assert HasReply(run[i].left.received, n, body);
    m :| m in run[i].left.received && m.Response? && m.requestNum == n && m.body == body;
  }

  /** From end to end: a request answered with a body was begun by its caller with some arguments
      under its number; exactly that request reached the other side; and there a handler, given it,
      responded with exactly that body. */
  lemma AnsweredAsGiven(run: seq<Pair>, moves: seq<Move>, i: nat, n: nat, body: Payload)
      returns (j: nat, k: nat, at: nat, arguments: Payload, handlers: seq<nat>)
    requires Schedules(run, moves) && i <= |moves| && n in run[i].left.outgoing
    requires run[i].left.outgoing[n].response == Some(Received(body))
    ensures j < k < i && moves[j] == Move(true, Client(BeginRequest(arguments, handlers))) && run[j].left.next == n
    ensures at < |run[k].right.received| && run[k].right.received[at] == Request(n, arguments)
    ensures moves[k] == Move(false, Client(BeginResponse(at, body)))
  {
    ScheduledIsRun(run, moves);
    var m := AnswerArrived(run, i, n, body);
    k, at := ResponseIsGiven(run, moves, i, m);
    var request := run[k].right.received[at];
    arguments := request.arguments;
    j, handlers := RequestIsGiven(run, moves, k, request);
  }
}
