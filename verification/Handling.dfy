/**
 How an incoming request gets its response: Request.respond, Message.error and
 Request._handle, for every behaviour of the handler and of the stream.

 A handler is a script: it responds and closes the channel any number of times, goes on or not
 when respond() raises, and then returns or raises. Bodies and exceptions are tokens, compared
 by identity as the source does.
 */
module Handling {
  import opened Options

  datatype Value = Body(id: nat) | Failure(id: nat)

  /** What the stream of an open channel does with a frame: it takes it, or it raises, perhaps
      when the whole frame is out. */
  datatype Write = Works | Breaks(out: bool)

  datatype Op =
    | Respond(value: Value, write: Write, caught: bool)   // isnt_valid and cant_handle respond with a Failure
    | Close

  datatype End =
    | ReturnNone
    | ReturnNoResponse
    | Return(value: Value)
    | RaiseError(id: nat, applies: bool)   // a MessageHandlingError
    | RaiseOther

  /** `write` is for the response that _handle itself may send. */
  datatype Handler = Handler(ops: seq<Op>, end: End, write: Write)

  /** `response` is Request.response; `frames` are the responses sent for this request. */
  datatype Exchange = Exchange(closed: bool, response: Option<Value>, frames: seq<Value>)

  const FRESH := Exchange(false, None, [])

  datatype Outcome = Handled(x: Exchange) | Fatal(x: Exchange)

  /** request.respond(v): Fatal stands for the exception it raises. */
  function Answer(x: Exchange, v: Value, write: Write): Outcome {
    if x.response.Some? || x.closed then Fatal(x)
    else
      match write
      case Works => Handled(x.(response := Some(v), frames := x.frames + [v]))
      case Breaks(out) => Fatal(if out then x.(frames := x.frames + [v]) else x)
  }

  function Perform(x: Exchange, op: Op): Outcome {
    match op
    case Respond(v, write, caught) =>
      var o := Answer(x, v, write);
      if caught then Handled(o.x) else o
    case Close => Handled(x.(closed := true))
  }

  function PerformAll(x: Exchange, ops: seq<Op>): Outcome
    decreases |ops|
  {
    if ops == [] then Handled(x)
    else
      var o := Perform(x, ops[0]);
      if o.Fatal? then o else PerformAll(o.x, ops[1..])
  }

  /** What _handle makes of the handler's result, and what it does with it. */
  function Conclude(x: Exchange, end: End, write: Write): Outcome {
    if end.RaiseOther? || (end.RaiseError? && !end.applies) then Fatal(x)
    else if end.ReturnNoResponse? then if x.response.None? then Handled(x) else Fatal(x)
    else
      var result := if end.ReturnNone? then None else if end.Return? then Some(end.value) else Some(Failure(end.id));
      if x.response.Some? then if result.None? || result == x.response then Handled(x) else Fatal(x)
      else if result.None? then Fatal(x)
      else if x.closed then Handled(x)
      else Answer(x, result.value, write)
  }

  function Handle(x: Exchange, h: Handler): Outcome {
    var o := PerformAll(x, h.ops);
    if o.Fatal? then o else Conclude(o.x, h.end, h.write)
  }

  // ----- the source's methods -----

  class IncomingRequest {
    var closed: bool
    var response: Option<Value>
    var frames: seq<Value>

    function Now(): Exchange
      reads this
    {
      Exchange(closed, response, frames)
    }

    constructor ()
      ensures Now() == FRESH
    {
      closed, response, frames := false, None, [];
    }

    method Respond(v: Value, write: Write) returns (raised: bool)
      modifies this
      ensures Answer(old(Now()), v, write) == if raised then Fatal(Now()) else Handled(Now())
    {
      if response.Some? || closed {
        return true;
      }
      if write != Breaks(false) {
        frames := frames + [v];
      }
      if write.Breaks? {
        return true;
      }
      response := Some(v);
      raised := false;
    }

    method RunHandler(h: Handler) returns (raised: bool)
      modifies this
      ensures PerformAll(old(Now()), h.ops) == if raised then Fatal(Now()) else Handled(Now())
    {
      var k := 0;
      raised := false;
      while k < |h.ops| && !raised
        invariant k <= |h.ops|
        invariant raised ==> PerformAll(old(Now()), h.ops) == Fatal(Now())
        invariant !raised ==> PerformAll(old(Now()), h.ops) == PerformAll(Now(), h.ops[k..])
        decreases |h.ops| - k
      {
        match h.ops[k] {
          case Respond(v, write, caught) =>
            raised := Respond(v, write);
            raised := raised && !caught;
          case Close => closed := true;
        }
        assert h.ops[k..][1..] == h.ops[k + 1..];
        k := k + 1;
      }
    }

    /** Request._handle; `fatal` means that the exception ends the process. */
    method HandleRequest(h: Handler) returns (fatal: bool)
      modifies this
      ensures Handle(old(Now()), h) == if fatal then Fatal(Now()) else Handled(Now())
    {
      fatal := RunHandler(h);
      if fatal {
        return;
      }
      var result: Option<Value> := None;
      match h.end {
        case ReturnNone =>
        case ReturnNoResponse => return response.Some?;
        case Return(v) => result := Some(v);
        case RaiseError(id, applies) =>
          if !applies { return true; }
          result := Some(Failure(id));
        case RaiseOther => return true;
      }
      if response.Some? {
        fatal := !(result.None? || result == response);
      } else if result.None? {
        fatal := true;
      } else if !closed {
        fatal := Respond(result.value, h.write);
      }
    }
  }

  // ----- whatever the handler does -----

  /** A respond() that raises while nothing is set, after which the handler goes on. */
  predicate Trying(op: Op) {
    op.Respond? && op.write.Breaks? && op.caught
  }

  /** On an open channel with no response set, the handler comes from its op `k` to its op `j`, or
      to its end, in the same state. */
  predicate Reaches(h: Handler, k: nat, j: nat)
    requires j <= |h.ops|
  {
    forall i | k <= i < j :: Trying(h.ops[i])
  }

  /** Op `j`, or the end of the handler, puts a frame out if it is reached. */
  predicate GoesOut(h: Handler, j: nat)
    requires j <= |h.ops|
  {
    if j < |h.ops| then h.ops[j].Respond? && h.ops[j].write != Breaks(false)
    else (h.end.Return? || (h.end.RaiseError? && h.end.applies)) && h.write != Breaks(false)
  }

  function FrameOf(h: Handler, j: nat): Value
    requires j <= |h.ops| && GoesOut(h, j)
  {
    if j < |h.ops| then h.ops[j].value else if h.end.Return? then h.end.value else Failure(h.end.id)
  }

  /** The frames the handler puts out from op `k` on, on an open channel with no response set. */
  function Sent(h: Handler, k: nat): seq<Value>
    requires k <= |h.ops|
    decreases |h.ops| - k
  {
    (if GoesOut(h, k) then [FrameOf(h, k)] else [])
    + if k < |h.ops| && Trying(h.ops[k]) then Sent(h, k + 1) else []
  }

  function From(h: Handler, k: nat): Handler
    requires k <= |h.ops|
  {
    h.(ops := h.ops[k..])
  }

  lemma {:induction false} NothingMore(x: Exchange, h: Handler)
    requires x.closed || x.response.Some?
    ensures Handle(x, h).x.frames == x.frames
    decreases |h.ops|
  {
    if h.ops != [] && Perform(x, h.ops[0]).Handled? {
      NothingMore(Perform(x, h.ops[0]).x, From(h, 1));
    }
  }

  lemma {:induction false} FramesAreSent(x: Exchange, h: Handler, k: nat)
    requires !x.closed && x.response.None? && k <= |h.ops|
    ensures Handle(x, From(h, k)).x.frames == x.frames + Sent(h, k)
    decreases |h.ops| - k
  {
    if k < |h.ops| {
      var o := Perform(x, h.ops[k]);
      assert h.ops[k..][1..] == h.ops[k + 1..];
      if Trying(h.ops[k]) {
        FramesAreSent(o.x, h, k + 1);
      } else if o.Handled? {
        NothingMore(o.x, From(h, k + 1));
      }
    }
  }

  lemma AllFramesAreSent(h: Handler)
    ensures Handle(FRESH, h).x.frames == Sent(h, 0)
  {
    assert From(h, 0) == h;
    FramesAreSent(FRESH, h, 0);
  }

  lemma {:induction false} SentIff(h: Handler, k: nat)
    requires k <= |h.ops|
    ensures |Sent(h, k)| >= 1 <==> exists j | k <= j <= |h.ops| :: Reaches(h, k, j) && GoesOut(h, j)
    decreases |h.ops| - k
  {
    assert Reaches(h, k, k);
    if k < |h.ops| && Trying(h.ops[k]) {
      SentIff(h, k + 1);
      forall j | k < j <= |h.ops| ensures Reaches(h, k, j) <==> Reaches(h, k + 1, j) {
      }
    }
  }

  /** Two frames go out from op `k` on. */
  predicate Twice(h: Handler, k: nat) {
    exists i, j | k <= i < j <= |h.ops| :: GoesOut(h, i) && Reaches(h, k, j) && GoesOut(h, j)
  }

  lemma {:induction false} SentTwiceIff(h: Handler, k: nat)
    requires k <= |h.ops|
    ensures |Sent(h, k)| >= 2 <==> Twice(h, k)
    decreases |h.ops| - k
  {
    if k < |h.ops| && Trying(h.ops[k]) {
      SentIff(h, k + 1);
      SentTwiceIff(h, k + 1);
      forall j | k < j <= |h.ops| ensures Reaches(h, k, j) <==> Reaches(h, k + 1, j) {
      }
    }
  }

  /** Whatever the handler does: two responses are sent exactly if a respond() raised when its frame
      was out, the handler went on, closing nothing, and a later respond(), or that of _handle, put
      a frame out while none had returned. */
  lemma TwoResponsesIff(h: Handler)
    ensures |Handle(FRESH, h).x.frames| >= 2 <==> Twice(h, 0)
  {
    AllFramesAreSent(h);
    SentTwiceIff(h, 0);
  }

  /** A handler that does not go on after a respond() that raised with its frame out never gets
      two responses sent, closing included. */
  lemma NeverTwoResponses(h: Handler)
    requires forall op <- h.ops | op.Respond? && op.caught :: op.write != Breaks(true)
    ensures |Handle(FRESH, h).x.frames| <= 1
  {
    TwoResponsesIff(h);
  }

  /** A handler that tries again after respond() raised may get two responses sent. */
  lemma MayRespondTwice(v: Value, w: Value)
    ensures Handle(FRESH, Handler([Respond(v, Breaks(true), true)], Return(w), Works)) ==
            Handled(Exchange(false, Some(w), [v, w]))
  {
    var op := Respond(v, Breaks(true), true);
    assert [op][1..] == [];
    assert PerformAll(FRESH, [op]) == Handled(Exchange(false, None, [v]));
  }

  // ----- exactly one response -----

  /** The position of the first respond() that the stream takes while the channel is open, or the
      length. */
  function First(ops: seq<Op>): (k: nat)
    ensures k <= |ops| && (k < |ops| ==> ops[k].Respond? && ops[k].write.Works?)
    ensures k < |ops| ==> forall i | 0 <= i < k :: ops[i].Respond? && ops[i].write.Breaks?
  {
    if ops == [] || (ops[0].Respond? && ops[0].write.Works?) then 0
    else if ops[0].Close? then |ops|
    else if First(ops[1..]) == |ops[1..]| then |ops| else 1 + First(ops[1..])
  }

  /** The handler goes on after each respond() but the one at `k`. */
  predicate AllCaught(ops: seq<Op>, k: nat) {
    forall i | 0 <= i < |ops| && i != k && ops[i].Respond? :: ops[i].caught
  }

  /** What _handle accepts of a handler: every respond() raises and is caught but the first that
      the stream takes; if there is that one, the handler returns nothing, or that very body, or
      raises the very error it responded with; if there is none, it returns NO_RESPONSE, or a body
      or an applicable error, and then the channel is closed or the stream takes that. The
      documentation of Request is stricter: after respond() a handler must not return a value. */
  predicate Tolerated(h: Handler) {
    var k := First(h.ops);
    && AllCaught(h.ops, k)
    && match h.end
       case ReturnNone => k < |h.ops|
       case ReturnNoResponse => k == |h.ops|
       case Return(v) => if k < |h.ops| then h.ops[k].value == v else Close in h.ops || h.write.Works?
       case RaiseError(id, applies) =>
         applies && if k < |h.ops| then h.ops[k].value == Failure(id) else Close in h.ops || h.write.Works?
       case RaiseOther => false
  }

  /** The responses that went out among the first `k` ops, on an open channel, although writing them
      raised. */
  function Broken(ops: seq<Op>, k: nat): seq<Value>
    requires k <= |ops|
  {
    if k == 0 then []
    else Broken(ops, k - 1) + if BreaksLate(ops, k - 1) then [ops[k - 1].value] else []
  }

  /** A respond() raises when its frame is out, the channel being open. */
  predicate BreaksLate(ops: seq<Op>, i: nat)
    requires i < |ops|
  {
    ops[i].Respond? && ops[i].write == Breaks(true) && Close !in ops[..i + 1]
  }

  /** The response a tolerated handler leads to by the time it has been handled. */
  function Expected(h: Handler): seq<Value> {
    var k := First(h.ops);
    if k < |h.ops| then [h.ops[k].value]
    else if Close in h.ops then []
    else match h.end
         case Return(v) => [v]
         case RaiseError(id, _) => [Failure(id)]
         case _ => []
  }

  lemma {:induction false} PerformAllSet(x: Exchange, ops: seq<Op>)
    requires x.response.Some? || x.closed
    ensures var x' := x.(closed := x.closed || Close in ops);
            PerformAll(x, ops) == Handled(x') || PerformAll(x, ops).Fatal?
    ensures PerformAll(x, ops).Handled? <==> AllCaught(ops, |ops|)
    decreases |ops|
  {
    if ops != [] {
      assert forall op :: op in ops <==> op == ops[0] || op in ops[1..];
      AllCaughtNext(ops, |ops|);
      if Perform(x, ops[0]).Handled? {
        PerformAllSet(Perform(x, ops[0]).x, ops[1..]);
      }
    }
  }

  lemma AllCaughtNext(ops: seq<Op>, k: nat)
    requires ops != []
    ensures k == 0 ==> (AllCaught(ops, k) <==> AllCaught(ops[1..], |ops[1..]|))
    ensures k > 0 ==> (AllCaught(ops, k) <==> (ops[0].Respond? ==> ops[0].caught) && AllCaught(ops[1..], k - 1))
  {
    forall i | 1 <= i < |ops| ensures ops[i] == ops[1..][i - 1] {
    }
  }

  lemma {:induction false} PerformAllOpen(x: Exchange, ops: seq<Op>)
    requires !x.closed && x.response.None?
    ensures var k, o := First(ops), PerformAll(x, ops);
            && (o.Handled? <==> AllCaught(ops, k))
            && (o.Handled? ==> o.x.response == if k < |ops| then Some(ops[k].value) else None)
            && (o.Handled? ==> (o.x.closed <==> Close in ops))
    decreases |ops|
  {
    if ops != [] {
      var k, o := First(ops), Perform(x, ops[0]);
      AllCaughtNext(ops, k);
      assert forall op :: op in ops <==> op == ops[0] || op in ops[1..];
      if k == 0 || ops[0].Close? {
        PerformAllSet(o.x, ops[1..]);
      } else if o.Handled? {
        PerformAllOpen(o.x, ops[1..]);
      }
    }
  }

  lemma {:induction false} BrokenIff(ops: seq<Op>, k: nat)
    requires k <= |ops|
    ensures Broken(ops, k) == [] <==> forall i | 0 <= i < k :: !BreaksLate(ops, i)
  {
    if k > 0 {
      BrokenIff(ops, k - 1);
    }
  }

  lemma {:induction false} SentBehind(h: Handler, k: nat)
    requires k <= |h.ops| && Reaches(h, 0, k)
    ensures Sent(h, 0) == Broken(h.ops, k) + Sent(h, k)
  {
    if k > 0 {
      SentBehind(h, k - 1);
      NoCloseBefore(h, k);
      var out := if BreaksLate(h.ops, k - 1) then [h.ops[k - 1].value] else [];
      TryingSends(h, k - 1, out);
      Assoc(Broken(h.ops, k - 1), out, Sent(h, k));
    }
  }

  lemma TryingSends(h: Handler, k: nat, out: seq<Value>)
    requires k < |h.ops| && Trying(h.ops[k]) && Close !in h.ops[..k + 1]
    requires out == if BreaksLate(h.ops, k) then [h.ops[k].value] else []
    ensures Sent(h, k) == out + Sent(h, k + 1)
  {
  }

  lemma NoCloseBefore(h: Handler, k: nat)
    requires k <= |h.ops| && Reaches(h, 0, k)
    ensures Close !in h.ops[..k]
  {
    forall i | 0 <= i < k ensures h.ops[..k][i] != Close {
      assert Trying(h.ops[i]);
    }
  }

  lemma Assoc(a: seq<Value>, b: seq<Value>, c: seq<Value>)
    ensures a + b + c == a + (b + c)
  {
  }

  lemma {:induction false} BrokenUntilClose(ops: seq<Op>, c: nat, k: nat)
    requires c < k <= |ops| && ops[c].Close?
    ensures Broken(ops, k) == Broken(ops, c)
  {
    assert ops[..k][c].Close?;
    assert !BreaksLate(ops, k - 1);
    if k > c + 1 {
      BrokenUntilClose(ops, c, k - 1);
    }
  }

  /** The position of the first Close, or the length. */
  function FirstClose(ops: seq<Op>): (c: nat)
    ensures c <= |ops| && (c < |ops| ==> ops[c].Close?) && forall i | 0 <= i < c :: !ops[i].Close?
    ensures c < |ops| <==> Close in ops
  {
    if ops == [] || ops[0].Close? then 0 else 1 + FirstClose(ops[1..])
  }

  lemma {:induction false} NothingTaken(ops: seq<Op>)
    requires First(ops) == |ops|
    ensures forall i | 0 <= i < FirstClose(ops) :: ops[i].Respond? && ops[i].write.Breaks?
    decreases |ops|
  {
    if ops != [] && !ops[0].Close? {
      NothingTaken(ops[1..]);
      forall i | 1 <= i < FirstClose(ops) ensures ops[i] == ops[1..][i - 1] {
      }
    }
  }

  lemma SentIs(h: Handler)
    requires Tolerated(h)
    ensures Sent(h, 0) == Broken(h.ops, First(h.ops)) + Expected(h)
  {
    var k, c := First(h.ops), FirstClose(h.ops);
    if k < |h.ops| {
      assert Reaches(h, 0, k);
      SentBehind(h, k);
    } else {
      NothingTaken(h.ops);
      assert Reaches(h, 0, c);
      SentBehind(h, c);
      if c < |h.ops| {
        BrokenUntilClose(h.ops, c, k);
      }
    }
  }

  /** Handling a request ends without an error exactly for the tolerated handlers. Then exactly one
      response has been sent, or none if the handler returned NO_RESPONSE or had closed the channel
      before it responded, besides those that went out although writing them raised. */
  lemma ExactlyOneResponse(h: Handler)
    ensures Handle(FRESH, h).Handled? <==> Tolerated(h)
    ensures Tolerated(h) ==>
              && Handle(FRESH, h).x.frames == Broken(h.ops, First(h.ops)) + Expected(h)
              && |Expected(h)| ==
                 if h.end.ReturnNoResponse? || (First(h.ops) == |h.ops| && Close in h.ops) then 0 else 1
    ensures Broken(h.ops, First(h.ops)) == [] <==> forall i | 0 <= i < First(h.ops) :: !BreaksLate(h.ops, i)
  {
    PerformAllOpen(FRESH, h.ops);
    BrokenIff(h.ops, First(h.ops));
    AllFramesAreSent(h);
    if Tolerated(h) {
      SentIs(h);
    }
  }

  /** After NO_RESPONSE on a channel that stays open one later respond() sends the response and sets
      it, and a second one raises and sends nothing. */
  lemma RespondedLater(h: Handler, v: Value, w: Value, write: Write)
    requires Close !in h.ops && h.end.ReturnNoResponse? && Tolerated(h)
    ensures var x := Exchange(false, Some(v), Broken(h.ops, |h.ops|) + [v]);
            && Answer(Handle(FRESH, h).x, v, Works) == Handled(x)
            && Answer(x, w, write) == Fatal(x)
  {
    ExactlyOneResponse(h);
    PerformAllOpen(FRESH, h.ops);
    assert Handle(FRESH, h).x == Exchange(false, None, Broken(h.ops, |h.ops|));
  }

  // ----- on a closed channel -----

  /** On a closed channel nothing is sent: a handler that only returns its result is fine, one
      that calls respond() itself ends the process unless it catches what that raises. */
  lemma ClosedChannel(h: Handler)
    ensures var o := Handle(FRESH.(closed := true), h);
            && o.x.frames == []
            && (o.Handled? <==> AllCaught(h.ops, |h.ops|) && match h.end
                                                             case ReturnNone => false
                                                             case RaiseOther => false
                                                             case RaiseError(_, applies) => applies
                                                             case _ => true)
  {
    PerformAllSet(FRESH.(closed := true), h.ops);
    NothingMore(FRESH.(closed := true), h);
  }
}
