/**
 The order of sequence numbers on the wire. A number is taken under one hold of the lock and
 the message is written under another, so a message can overtake one with a smaller number.
 */
module ChannelOrder {
  import opened Channel
  import opened ChannelTable
  import opened ChannelWire
  import opened ChannelRuns

  /** Step `j` of the run puts a message on the wire. */
  predicate Writes(run: seq<State>, j: nat)
    requires 0 < j < |run|
  {
    |run[j - 1].wire| < |run[j].wire|
  }

  predicate HasNumber(wire: seq<Message>, n: nat) {
    exists m <- wire :: m.num == n
  }

  ghost predicate Increasing(wire: seq<Message>) {
    forall p, q | 0 <= p < q < |wire| :: wire[p].num < wire[q].num
  }

  /** The message that step `j` writes overtakes number `n`: smaller, and taken but not yet
      written. */
  predicate Overtakes(run: seq<State>, j: nat, n: nat)
    requires 0 < j < |run|
  {
    Writes(run, j) && n in run[j - 1].drafts && n < run[j].wire[|run[j - 1].wire|].num
  }

  /** What a step does to the numbers: it takes at most one, the next; it writes at most one
      message, whose number was taken before; and a number that is gone is not taken again. */
  ghost predicate NumbersMove(s: State, s': State) {
    && (s'.wire == s.wire || exists m: Message :: s'.wire == s.wire + [m] && m.num in s.drafts)
    && (forall n <- s'.drafts :: n in s.drafts || n >= s.next)
    && s.next <= s'.next <= s.next + 1
  }

  lemma ClientNumbers(s: State, a: ClientAction)
    requires ClientEnabled(s, a)
    ensures NumbersMove(s, ClientStep(s, a))
  {
    if a.Write? {
      var m := Framed(a.num, s.drafts[a.num]);
      assert m.num in s.drafts;
      assert ClientStep(s, a).wire == s.wire || ClientStep(s, a).wire == s.wire + [m];
    }
  }

  lemma ParserNumbers(s: State, a: ParserAction)
    requires ParserEnabled(s, a)
    ensures NumbersMove(s, ParserStep(s, a))
  {
    if a.Disconnect? {
      SettleAllFrame(s, s.sent);
    }
  }

  lemma RunNumbers(run: seq<State>, j: nat)
    requires IsRun(run) && 0 < j < |run|
    ensures NumbersMove(run[j - 1], run[j])
  {
    assert NextAt(run, j);
    var a :| Enabled(run[j - 1], a) && run[j] == Step(run[j - 1], a);
    match a
    case Client(c) => ClientNumbers(run[j - 1], c);
    case Parser(p) => ParserNumbers(run[j - 1], p);
    case Runner(t, r) =>
  }

  lemma WireHolds(run: seq<State>, j: nat)
    requires IsRun(run) && j < |run|
    ensures WireOk(run[j].wire, run[j].drafts, run[j].next)
  {
    RunInv(run, j);
  }

  lemma {:induction false} WireGrows(run: seq<State>, j: nat, i: nat)
    requires IsRun(run) && j <= i < |run|
    ensures run[j].wire <= run[i].wire
    decreases i - j
  {
    if j < i {
      WireGrows(run, j, i - 1);
      RunNumbers(run, i);
    }
  }

  /** A number that was taken, and is not waiting to be written, is not written any more. */
  lemma {:induction false} GoneForGood(run: seq<State>, j: nat, i: nat, n: nat)
    requires IsRun(run) && j <= i < |run| && n < run[j].next && n !in run[j].drafts
    ensures n < run[i].next && n !in run[i].drafts
    ensures HasNumber(run[i].wire, n) ==> HasNumber(run[j].wire, n)
    decreases i - j
  {
    if j < i {
      GoneForGood(run, j, i - 1, n);
      RunNumbers(run, i);
    }
  }

  /** The step that put the message at position `p` on the wire. */
  lemma {:induction false} WrittenAt(run: seq<State>, i: nat, p: nat) returns (j: nat)
    requires IsRun(run) && i < |run| && p < |run[i].wire|
    ensures 0 < j <= i && Writes(run, j) && |run[j - 1].wire| == p
    ensures run[j].wire == run[j - 1].wire + [run[i].wire[p]] && run[i].wire[p].num in run[j - 1].drafts
    decreases i
  {
    assert i > 0;
    RunNumbers(run, i);
    if p < |run[i - 1].wire| {
      j := WrittenAt(run, i - 1, p);
      assert run[i].wire[p] == run[i - 1].wire[p];
    } else {
      j := i;
    }
  }

  /** A message that is on the wire behind one with a greater number was overtaken by it. */
  lemma BehindIsOvertaken(run: seq<State>, i: nat, p: nat, q: nat) returns (j: nat)
    requires IsRun(run) && i < |run| && p < q < |run[i].wire| && run[i].wire[q].num < run[i].wire[p].num
    ensures 0 < j <= i && Overtakes(run, j, run[i].wire[q].num)
  {
    j := WrittenAt(run, i, p);
    var n := run[i].wire[q].num;
    WireHolds(run, j - 1);
    WireHolds(run, i);
    WireGrows(run, j - 1, i);
    NumberOnce(run[i].wire, p, q);
    assert run[j - 1].wire == run[i].wire[..p];
    assert HasNumber(run[i].wire, n);
    if n !in run[j - 1].drafts {
      GoneForGood(run, j - 1, i, n);
      assert false;
    }
  }

  lemma NumberOnce(wire: seq<Message>, p: nat, q: nat)
    requires p <= q < |wire| && forall i, j | 0 <= i < j < |wire| :: wire[i].num != wire[j].num
    ensures !HasNumber(wire[..p], wire[q].num)
  {
  }

  /** What was overtaken, once it is written, is behind. */
  lemma OvertakenIsBehind(run: seq<State>, i: nat, j: nat, n: nat)
    requires IsRun(run) && 0 < j <= i < |run| && Overtakes(run, j, n) && HasNumber(run[i].wire, n)
    ensures !Increasing(run[i].wire)
  {
    var p := |run[j - 1].wire|;
    var m :| m in run[i].wire && m.num == n;
    var q :| 0 <= q < |run[i].wire| && run[i].wire[q] == m;
    WireHolds(run, j - 1);
    WireGrows(run, j - 1, i);
    WireGrows(run, j, i);
    assert forall k | 0 <= k < p :: run[i].wire[k] == run[j - 1].wire[k] && run[j - 1].wire[k] in run[j - 1].wire;
    assert p < q && run[i].wire[q].num < run[i].wire[p].num;
  }

  /** In every state of every run the numbers on the wire increase if, and only if, no message
      that went out overtook one that is on the wire by now. */
  lemma IncreasingIff(run: seq<State>, i: nat)
    requires IsRun(run) && i < |run|
    ensures Increasing(run[i].wire) <==>
            forall j, n | 0 < j <= i && Overtakes(run, j, n) :: !HasNumber(run[i].wire, n)
  {
    if j, n :| 0 < j <= i && Overtakes(run, j, n) && HasNumber(run[i].wire, n) {
      OvertakenIsBehind(run, i, j, n);
    } else {
      var wire := run[i].wire;
      WireHolds(run, i);
      forall p, q | 0 <= p < q < |wire| ensures wire[p].num < wire[q].num {
        if wire[q].num < wire[p].num {
          var j := BehindIsOvertaken(run, i, p, q);
          assert HasNumber(wire, wire[q].num);
          assert false;
        }
      }
    }
  }

  /** Each number is written, or has failed to be, before the next one is taken: what senders
      get that hold the channel's lock around a whole send. */
  ghost predicate OneAtATime(run: seq<State>) {
    forall j | 0 < j < |run| && run[j - 1].next < run[j].next :: run[j - 1].drafts == map[]
  }

  lemma {:induction false} OneDraft(run: seq<State>, i: nat)
    requires IsRun(run) && OneAtATime(run) && i < |run|
    ensures forall n, k | n in run[i].drafts && k in run[i].drafts :: n == k
  {
    if i > 0 {
      OneDraft(run, i - 1);
      RunNumbers(run, i);
      WireHolds(run, i);
    }
  }

  /** Then the numbers on the wire increase. */
  lemma OneAtATimeIncreases(run: seq<State>, i: nat)
    requires IsRun(run) && OneAtATime(run) && i < |run|
    ensures Increasing(run[i].wire)
  {
    IncreasingIff(run, i);
    forall j, n | 0 < j <= i ensures !Overtakes(run, j, n) {
      OneDraft(run, j - 1);
      RunNumbers(run, j);
    }
  }

  /** They need not: two events, of which the second is written first. */
  lemma WireNumbersMayDecrease() returns (run: seq<State>)
    ensures IsRun(run)
    ensures var wire := run[|run| - 1].wire; |wire| == 2 && wire[0].num > wire[1].num
  {
    var acts := [Client(BeginEvent("a")), Client(BeginEvent("b")), Client(Write(2, Written)),
                 Client(Write(1, Written))];
    var s1 := Step(INIT, acts[0]);
    var s2 := Step(s1, acts[1]);
    var s3 := Step(s2, acts[2]);
    var s4 := Step(s3, acts[3]);
    assert Next(INIT, s1) && Next(s1, s2) && Next(s2, s3) && Next(s3, s4);
    run := [INIT, s1, s2, s3, s4];
  }
}
