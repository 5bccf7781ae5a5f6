/**
 The debug servers connected to the adapter: the list of registered connections, the sessions
 they are attached to, and how both hear of a disconnect.

 A step is what happens under one hold of the servers' lock. A channel looks its disconnect
 handler up without that lock, once, and calls what it found later; both are steps.
 */
module Servers {
  import opened Options
  import opened Sequences

  /** Who handles the messages of a channel: the connection itself, or a Server component. */
  datatype Handler = Own | Of(server: nat)

  datatype Connection = Connection(pid: int, settled: bool, disconnected: bool, server: Option<nat>, handlers: Handler)

  /** `told`: its disconnect() was called. `inTime`: when it was attached, its connection was
      registered and the handler of another Server had not been looked up. */
  datatype Server = Server(session: nat, connection: nat, connected: bool, closing: bool, detached: bool, told: bool,
                           inTime: bool)

  /** `list` is `_connections`; `log` has every connection that was ever added to it. */
  datatype State = State(
    connections: seq<Connection>,
    servers: seq<Server>,
    list: seq<nat>,
    log: seq<nat>,
    fetched: map<nat, Handler>,
    ran: set<nat>,
    finalizing: set<nat>,
    lookedUp: set<(nat, nat)>)

  const INIT := State([], [], [], [], map[], {}, {}, {})

  datatype Action =
    | Accept(pid: int)
    | Register(conn: nat)
    | LookUp(session: nat, conn: nat)
    | Attach(session: nat, conn: nat)
    | Fetch(conn: nat)
    | Disconnect(conn: nat)
    | LoseServer(server: nat)
    | Finalize(session: nat)
    | Detach(server: nat)

  predicate Enabled(s: State, a: Action) {
    match a
    case Accept(_) => true
    case Register(c) => c < |s.connections| && !s.connections[c].settled
    case LookUp(_, c) => c in s.list
    case Attach(session, c) => (session, c) in s.lookedUp && c < |s.connections|
    case Fetch(c) => c < |s.connections| && c !in s.fetched
    case Disconnect(c) => c < |s.connections| && c in s.fetched && c !in s.ran
    case LoseServer(k) => k < |s.servers| && s.servers[k].told
    case Finalize(_) => true
    case Detach(k) => k < |s.servers| && s.servers[k].closing && !s.servers[k].detached
  }

  predicate PidTaken(s: State, pid: int) {
    exists d <- s.list :: d < |s.connections| && s.connections[d].pid == pid
  }

  function RegisterStep(s: State, c: nat): State
    requires c < |s.connections|
  {
    var s1 := s.(connections := s.connections[c := s.connections[c].(settled := true)]);
    if s.connections[c].disconnected || PidTaken(s, s.connections[c].pid) then s1
    else s1.(list := s.list + [c], log := s.log + [c])
  }

  predicate HasServer(servers: seq<Server>, session: nat) {
    exists v <- servers :: v.session == session
  }

  predicate InTime(s: State, c: nat) {
    c in s.list && (c !in s.fetched || s.fetched[c] == Own)
  }

  /** attach_to_session. It raises, and changes nothing, if the connection has a Server or the
      session has one. */
  function AttachStep(s: State, session: nat, c: nat): State
    requires c < |s.connections|
  {
    if s.connections[c].server.Some? || HasServer(s.servers, session) then s
    else
      var k := |s.servers|;
      s.(servers := s.servers + [Server(session, c, true, false, false, false, InTime(s, c))],
         connections := s.connections[c := s.connections[c].(server := Some(k), handlers := Of(k))])
  }

  /** Server.disconnect, up to the point where it has removed the connection from the list. */
  function TellServer(s: State, k: nat): State
    requires k < |s.servers|
  {
    s.(list := Remove(s.list, s.servers[k].connection), servers := s.servers[k := s.servers[k].(told := true)])
  }

  /** The disconnect handler that was looked up runs. */
  function DisconnectStep(s: State, c: nat): State
    requires c < |s.connections| && c in s.fetched
  {
    match s.fetched[c]
    case Own =>
      var s1 := s.(ran := s.ran + {c}, connections := s.connections[c := s.connections[c].(disconnected := true)]);
      if s.connections[c].server.Some? && s.connections[c].server.value < |s.servers| then
        TellServer(s1, s.connections[c].server.value)
      else if c in s.list then s1.(list := Remove(s.list, c)) else s1
    case Of(k) =>
      var s1 := s.(ran := s.ran + {c});
      if k < |s.servers| then TellServer(s1, k) else s1
  }

  function DetachStep(s: State, k: nat): State
    requires k < |s.servers|
  {
    var c := s.servers[k].connection;
    var s1 := s.(servers := s.servers[k := s.servers[k].(connected := false, detached := true)]);
    if c < |s.connections| then
      s1.(connections := s.connections[c := s.connections[c].(server := None, handlers := Own)])
    else s1
  }

  /** Component.disconnect: the Server is no longer connected, and its session finalizes. */
  function LoseStep(s: State, k: nat): State
    requires k < |s.servers|
  {
    var s1 := s.(servers := s.servers[k := s.servers[k].(connected := false)]);
    if s.servers[k].session in s.finalizing then s1
    else DetachStep(s1.(finalizing := s.finalizing + {s.servers[k].session}), k)
  }

  /** Session.finalize, called for another reason. Its Server, if any, is going to be detached. */
  function FinalizeStep(s: State, session: nat): State {
    if session in s.finalizing then s
    else s.(finalizing := s.finalizing + {session},
            servers := seq(|s.servers|, i requires 0 <= i < |s.servers| =>
              if s.servers[i].session == session then s.servers[i].(closing := true) else s.servers[i]))
  }

  function Step(s: State, a: Action): State
    requires Enabled(s, a)
  {
    match a
    case Accept(pid) => s.(connections := s.connections + [Connection(pid, false, false, None, Own)])
    case Register(c) => RegisterStep(s, c)
    case LookUp(session, c) => s.(lookedUp := s.lookedUp + {(session, c)})
    case Attach(session, c) => AttachStep(s, session, c)
    case Fetch(c) => s.(fetched := s.fetched[c := s.connections[c].handlers])
    case Disconnect(c) => DisconnectStep(s, c)
    case LoseServer(k) => LoseStep(s, k)
    case Finalize(session) => FinalizeStep(s, session)
    case Detach(k) => DetachStep(s, k)
  }

  ghost predicate Next(s: State, s': State) {
    exists a: Action :: Enabled(s, a) && s' == Step(s, a)
  }

  ghost predicate NextAt(run: seq<State>, i: nat)
    requires 0 < i < |run|
  {
    Next(run[i - 1], run[i])
  }

  ghost predicate IsRun(run: seq<State>) {
    && run != []
    && run[0] == INIT
    && forall i | 0 < i < |run| :: NextAt(run, i)
  }

  // ----- the invariant -----

  /** The connections of `log` that have not disconnected, in its order. */
  function Remaining(log: seq<nat>, ran: set<nat>): seq<nat> {
    if log == [] then []
    else
      var before := Remaining(log[..|log| - 1], ran);
      if log[|log| - 1] in ran then before else before + [log[|log| - 1]]
  }

  lemma {:induction false} RemainingHas(log: seq<nat>, ran: set<nat>)
    ensures forall c :: c in Remaining(log, ran) <==> c in log && c !in ran
  {
    if log != [] {
      var last := |log| - 1;
      RemainingHas(log[..last], ran);
      assert log == log[..last] + [log[last]];
    }
  }

  lemma WithoutAppend(xs: seq<nat>, y: nat, x: nat)
    ensures x != y ==> Remove(xs + [y], x) == Remove(xs, x) + [y]
    ensures x !in xs ==> Remove(xs + [x], x) == xs
  {
    if xs != [] {
      assert (xs + [y])[1..] == xs[1..] + [y] && (xs + [x])[1..] == xs[1..] + [x];
      if xs[0] != x {
        WithoutAppend(xs[1..], y, x);
      }
    }
  }

  /** Taking the one that disconnects out of the list leaves the rest, in order. */
  lemma {:induction false} RemoveOne(log: seq<nat>, ran: set<nat>, c: nat)
    requires Distinct(log) && c !in ran
    ensures Remove(Remaining(log, ran), c) == Remaining(log, ran + {c})
    decreases |log|
  {
    if log != [] {
      var before, last := log[..|log| - 1], log[|log| - 1];
      RemoveOne(before, ran, c);
      if last !in ran {
        WithoutAppend(Remaining(before, ran), last, c);
        RemainingHas(before, ran);
        if last == c {
          NotTwice(log);
          NotThere(before, ran, c);
        }
      }
    }
  }

  lemma NotTwice(log: seq<nat>)
    requires Distinct(log) && log != []
    ensures log[|log| - 1] !in log[..|log| - 1]
  {
  }

  lemma {:induction false} NotThere(log: seq<nat>, ran: set<nat>, c: nat)
    requires c !in log
    ensures Remaining(log, ran + {c}) == Remaining(log, ran)
  {
    if log != [] {
      NotThere(log[..|log| - 1], ran, c);
    }
  }

  lemma {:induction false} NeverRan(log: seq<nat>, ran: set<nat>, c: nat)
    requires c !in ran
    ensures Remaining(log + [c], ran) == Remaining(log, ran) + [c]
  {
    assert (log + [c])[..|log|] == log;
  }

  /** The list is what was registered and has not disconnected, oldest first. */
  ghost predicate ListOk(list: seq<nat>, log: seq<nat>, ran: set<nat>) {
    Distinct(log) && list == Remaining(log, ran)
  }

  ghost predicate PidsOk(list: seq<nat>, connections: seq<Connection>) {
    && (forall c <- list :: c < |connections|)
    && (forall c, d | c in list && d in list && c != d :: connections[c].pid != connections[d].pid)
  }

  ghost predicate FlagsOk(connections: seq<Connection>, log: seq<nat>, fetched: map<nat, Handler>, ran: set<nat>) {
    && (forall c <- log :: c < |connections| && connections[c].settled)
    && (forall c | 0 <= c < |connections| && connections[c].disconnected :: c in ran)
    && (forall c <- fetched :: c < |connections|)
    && (forall c <- ran :: c in fetched && (c in log || (c < |connections| && connections[c].disconnected)))
  }

  /** A connection's Server is the one of its Servers that is not detached. */
  ghost predicate LinksOk(connections: seq<Connection>, servers: seq<Server>, log: seq<nat>) {
    && (forall k | 0 <= k < |servers| :: servers[k].connection < |connections| && servers[k].connection in log)
    && (forall k | 0 <= k < |servers| && !servers[k].detached :: connections[servers[k].connection].server == Some(k))
    && (forall c | 0 <= c < |connections| && connections[c].server.Some? ::
          var k := connections[c].server.value; k < |servers| && servers[k].connection == c && !servers[k].detached)
    && (forall c | 0 <= c < |connections| ::
          connections[c].handlers == if connections[c].server.Some? then Of(connections[c].server.value) else Own)
  }

  ghost predicate SessionsOk(servers: seq<Server>, finalizing: set<nat>) {
    && (forall j, k | 0 <= j < k < |servers| :: servers[j].session != servers[k].session)
    && (forall k | 0 <= k < |servers| && (servers[k].detached || servers[k].closing) ::
        servers[k].session in finalizing)
  }

  ghost predicate LookedUpOk(lookedUp: set<(nat, nat)>, log: seq<nat>) {
    forall p <- lookedUp :: p.1 in log
  }

  ghost predicate FetchedOk(fetched: map<nat, Handler>, servers: seq<Server>) {
    forall c <- fetched | fetched[c].Of? :: fetched[c].server < |servers| && servers[fetched[c].server].connection == c
  }

  /** A Server attached in time, and not detached, is told or is going to be told. */
  predicate Reaches(fetched: map<nat, Handler>, ran: set<nat>, v: Server, k: nat) {
    if v.connection in ran then v.told
    else v.connection !in fetched || fetched[v.connection] == Own || fetched[v.connection] == Of(k)
  }

  /** A Server not attached in time is not told and is never going to be. */
  predicate Misses(fetched: map<nat, Handler>, ran: set<nat>, v: Server, k: nat) {
    !v.told && (v.connection in ran || (v.connection in fetched && fetched[v.connection].Of?
                                        && fetched[v.connection].server < k))
  }

  ghost predicate ToldOk(fetched: map<nat, Handler>, ran: set<nat>, servers: seq<Server>) {
    && (forall k | 0 <= k < |servers| && servers[k].told :: servers[k].connection in ran)
    && (forall k | 0 <= k < |servers| && servers[k].inTime && !servers[k].detached ::
        Reaches(fetched, ran, servers[k], k))
    && (forall k | 0 <= k < |servers| && !servers[k].inTime :: Misses(fetched, ran, servers[k], k))
  }

  ghost predicate Inv(s: State) {
    && ListOk(s.list, s.log, s.ran)
    && PidsOk(s.list, s.connections)
    && FlagsOk(s.connections, s.log, s.fetched, s.ran)
    && LinksOk(s.connections, s.servers, s.log)
    && SessionsOk(s.servers, s.finalizing)
    && LookedUpOk(s.lookedUp, s.log)
    && FetchedOk(s.fetched, s.servers)
    && ToldOk(s.fetched, s.ran, s.servers)
  }

  predicate Registers(s: State, c: nat) {
    c < |s.connections| && !s.connections[c].settled && !s.connections[c].disconnected
      && !PidTaken(s, s.connections[c].pid)
  }

  function Settle(connections: seq<Connection>, c: nat): seq<Connection>
    requires c < |connections|
  {
    connections[c := connections[c].(settled := true)]
  }

  lemma RegisterList(list: seq<nat>, log: seq<nat>, ran: set<nat>, c: nat)
    requires ListOk(list, log, ran) && c !in log && c !in ran
    ensures ListOk(list + [c], log + [c], ran)
  {
    NeverRan(log, ran, c);
  }

  lemma RegisterPids(list: seq<nat>, connections: seq<Connection>, c: nat)
    requires PidsOk(list, connections) && c < |connections|
    requires forall d <- list :: connections[d].pid != connections[c].pid
    ensures PidsOk(list + [c], Settle(connections, c))
  {
    assert forall d :: d in list + [c] <==> d in list || d == c;
  }

  lemma SettleFlags(connections: seq<Connection>, log: seq<nat>, fetched: map<nat, Handler>, ran: set<nat>, c: nat)
    requires FlagsOk(connections, log, fetched, ran) && c < |connections|
    ensures FlagsOk(Settle(connections, c), log, fetched, ran)
    ensures FlagsOk(Settle(connections, c), log + [c], fetched, ran)
  {
  }

  lemma SettleLinks(connections: seq<Connection>, servers: seq<Server>, log: seq<nat>, c: nat)
    requires LinksOk(connections, servers, log) && c < |connections|
    ensures LinksOk(Settle(connections, c), servers, log)
    ensures LinksOk(Settle(connections, c), servers, log + [c])
  {
  }

  lemma RegisterInv(s: State, c: nat)
    requires Inv(s) && Enabled(s, Register(c))
    ensures Inv(RegisterStep(s, c))
  {
    SettleFlags(s.connections, s.log, s.fetched, s.ran, c);
    SettleLinks(s.connections, s.servers, s.log, c);
    if Registers(s, c) {
      RegisterList(s.list, s.log, s.ran, c);
      RegisterPids(s.list, s.connections, c);
    } else {
      assert PidsOk(s.list, Settle(s.connections, c));
    }
  }

  lemma AttachLinks(s: State, session: nat, c: nat)
    requires LinksOk(s.connections, s.servers, s.log) && c < |s.connections| && c in s.log
    ensures var s' := AttachStep(s, session, c);
            LinksOk(s'.connections, s'.servers, s'.log)
  {
  }

  lemma AttachTold(s: State, session: nat, c: nat)
    requires ToldOk(s.fetched, s.ran, s.servers) && FetchedOk(s.fetched, s.servers)
    requires c < |s.connections| && c in s.log && ListOk(s.list, s.log, s.ran)
    ensures var s' := AttachStep(s, session, c);
            ToldOk(s'.fetched, s'.ran, s'.servers) && FetchedOk(s'.fetched, s'.servers)
  {
    RemainingHas(s.log, s.ran);
  }

  lemma AttachInv(s: State, session: nat, c: nat)
    requires Inv(s) && Enabled(s, Attach(session, c))
    ensures Inv(AttachStep(s, session, c))
  {
    AttachLinks(s, session, c);
    AttachTold(s, session, c);
    AttachRest(s, session, c);
  }

  lemma AttachRest(s: State, session: nat, c: nat)
    requires PidsOk(s.list, s.connections) && FlagsOk(s.connections, s.log, s.fetched, s.ran)
    requires SessionsOk(s.servers, s.finalizing) && c < |s.connections|
    ensures var s' := AttachStep(s, session, c);
            && PidsOk(s'.list, s'.connections) && FlagsOk(s'.connections, s'.log, s'.fetched, s'.ran)
            && SessionsOk(s'.servers, s'.finalizing)
  {
  }

  lemma FetchInv(s: State, c: nat)
    requires Inv(s) && Enabled(s, Fetch(c))
    ensures Inv(Step(s, Fetch(c)))
  {
    FetchTold(s.connections, s.servers, s.log, s.fetched, s.ran, c);
    assert FlagsOk(s.connections, s.log, s.fetched[c := s.connections[c].handlers], s.ran);
  }

  lemma FetchTold(connections: seq<Connection>, servers: seq<Server>, log: seq<nat>, fetched: map<nat, Handler>,
                  ran: set<nat>, c: nat)
    requires LinksOk(connections, servers, log) && ToldOk(fetched, ran, servers) && FetchedOk(fetched, servers)
    requires c < |connections| && c !in fetched
    ensures var fetched' := fetched[c := connections[c].handlers];
            ToldOk(fetched', ran, servers) && FetchedOk(fetched', servers)
  {
    var fetched' := fetched[c := connections[c].handlers];
    forall k | 0 <= k < |servers| && servers[k].inTime && !servers[k].detached
      ensures Reaches(fetched', ran, servers[k], k) {
      assert Reaches(fetched, ran, servers[k], k);
    }
    forall k | 0 <= k < |servers| && !servers[k].inTime ensures Misses(fetched', ran, servers[k], k) {
      assert Misses(fetched, ran, servers[k], k);
    }
  }

  // ----- a disconnect keeps the invariant -----

  lemma {:induction false} WithoutNone(xs: seq<nat>, x: nat)
    requires x !in xs
    ensures Remove(xs, x) == xs
  {
    if xs != [] {
      WithoutNone(xs[1..], x);
    }
  }

  lemma RanList(list: seq<nat>, log: seq<nat>, ran: set<nat>, c: nat)
    requires ListOk(list, log, ran) && c !in ran
    ensures ListOk(Remove(list, c), log, ran + {c})
    ensures c !in list ==> Remove(list, c) == list
    ensures forall d :: d in Remove(list, c) <==> d in list && d != c
  {
    RemoveOne(log, ran, c);
    RemainingHas(log, ran);
    RemainingHas(log, ran + {c});
    if c !in list {
      WithoutNone(list, c);
    }
  }

  function Tell(servers: seq<Server>, k: nat): seq<Server>
    requires k < |servers|
  {
    servers[k := servers[k].(told := true)]
  }

  lemma TellLinks(connections: seq<Connection>, servers: seq<Server>, log: seq<nat>, finalizing: set<nat>, k: nat)
    requires LinksOk(connections, servers, log) && SessionsOk(servers, finalizing) && k < |servers|
    ensures LinksOk(connections, Tell(servers, k), log) && SessionsOk(Tell(servers, k), finalizing)
  {
  }

  /** The Server that is told is the one that Reaches says, so nothing is missed. */
  lemma TellTold(connections: seq<Connection>, servers: seq<Server>, log: seq<nat>, fetched: map<nat, Handler>,
                 ran: set<nat>, c: nat, k: nat)
    requires LinksOk(connections, servers, log) && ToldOk(fetched, ran, servers) && FetchedOk(fetched, servers)
    requires c < |connections| && c in fetched && c !in ran && k < |servers|
    requires fetched[c] == Of(k) || (fetched[c] == Own && connections[c].server == Some(k))
    ensures ToldOk(fetched, ran + {c}, Tell(servers, k)) && FetchedOk(fetched, Tell(servers, k))
  {
    var servers' := Tell(servers, k);
    forall j | 0 <= j < |servers'| && servers'[j].inTime && !servers'[j].detached
      ensures Reaches(fetched, ran + {c}, servers'[j], j)
    {
      assert Reaches(fetched, ran, servers[j], j);
    }
    forall j | 0 <= j < |servers'| && !servers'[j].inTime ensures Misses(fetched, ran + {c}, servers'[j], j) {
      assert Misses(fetched, ran, servers[j], j);
    }
  }

  lemma NobodyTold(connections: seq<Connection>, servers: seq<Server>, log: seq<nat>, fetched: map<nat, Handler>,
                   ran: set<nat>, c: nat)
    requires LinksOk(connections, servers, log) && ToldOk(fetched, ran, servers)
    requires c < |connections| && c in fetched && c !in ran && connections[c].server.None?
    ensures ToldOk(fetched, ran + {c}, servers)
  {
    forall j | 0 <= j < |servers| && servers[j].inTime && !servers[j].detached
      ensures Reaches(fetched, ran + {c}, servers[j], j)
    {
      assert Reaches(fetched, ran, servers[j], j);
    }
    forall j | 0 <= j < |servers| && !servers[j].inTime ensures Misses(fetched, ran + {c}, servers[j], j) {
      assert Misses(fetched, ran, servers[j], j);
    }
  }

  function Mark(connections: seq<Connection>, c: nat): seq<Connection>
    requires c < |connections|
  {
    connections[c := connections[c].(disconnected := true)]
  }

  lemma MarkOk(connections: seq<Connection>, servers: seq<Server>, list: seq<nat>, log: seq<nat>,
               fetched: map<nat, Handler>, ran: set<nat>, c: nat)
    requires LinksOk(connections, servers, log) && FlagsOk(connections, log, fetched, ran) && PidsOk(list, connections)
    requires c < |connections| && c in fetched
    ensures LinksOk(Mark(connections, c), servers, log) && FlagsOk(Mark(connections, c), log, fetched, ran + {c})
    ensures PidsOk(list, Mark(connections, c))
  {
  }

  lemma PidsWithout(list: seq<nat>, list': seq<nat>, connections: seq<Connection>)
    requires PidsOk(list, connections) && forall d <- list' :: d in list
    ensures PidsOk(list', connections)
  {
  }

  lemma OwnDisconnectInv(s: State, c: nat)
    requires Inv(s) && Enabled(s, Disconnect(c)) && s.fetched[c] == Own
    ensures Inv(DisconnectStep(s, c))
  {
    RanList(s.list, s.log, s.ran, c);
    MarkOk(s.connections, s.servers, s.list, s.log, s.fetched, s.ran, c);
    PidsWithout(s.list, Remove(s.list, c), Mark(s.connections, c));
    if s.connections[c].server.Some? {
      var k := s.connections[c].server.value;
      TellLinks(Mark(s.connections, c), s.servers, s.log, s.finalizing, k);
      TellTold(s.connections, s.servers, s.log, s.fetched, s.ran, c, k);
    } else {
      NobodyTold(s.connections, s.servers, s.log, s.fetched, s.ran, c);
    }
  }

  lemma ServerDisconnectInv(s: State, c: nat)
    requires Inv(s) && Enabled(s, Disconnect(c)) && s.fetched[c].Of?
    ensures Inv(DisconnectStep(s, c))
  {
    var k := s.fetched[c].server;
    RanList(s.list, s.log, s.ran, c);
    PidsWithout(s.list, Remove(s.list, c), s.connections);
    TellLinks(s.connections, s.servers, s.log, s.finalizing, k);
    TellTold(s.connections, s.servers, s.log, s.fetched, s.ran, c, k);
    assert FlagsOk(s.connections, s.log, s.fetched, s.ran + {c});
  }

  // ----- so does detaching -----

  function Release(connections: seq<Connection>, c: nat): seq<Connection>
    requires c < |connections|
  {
    connections[c := connections[c].(server := None, handlers := Own)]
  }

  function Close(servers: seq<Server>, k: nat): seq<Server>
    requires k < |servers|
  {
    servers[k := servers[k].(connected := false, detached := true)]
  }

  lemma DetachLinks(connections: seq<Connection>, servers: seq<Server>, log: seq<nat>, k: nat)
    requires LinksOk(connections, servers, log) && k < |servers| && !servers[k].detached
    ensures LinksOk(Release(connections, servers[k].connection), Close(servers, k), log)
  {
  }

  lemma DetachTold(fetched: map<nat, Handler>, ran: set<nat>, servers: seq<Server>, finalizing: set<nat>, k: nat)
    requires ToldOk(fetched, ran, servers) && FetchedOk(fetched, servers) && SessionsOk(servers, finalizing)
             && k < |servers|
    requires servers[k].session in finalizing
    ensures ToldOk(fetched, ran, Close(servers, k)) && FetchedOk(fetched, Close(servers, k))
            && SessionsOk(Close(servers, k), finalizing)
  {
    var servers' := Close(servers, k);
    forall j | 0 <= j < |servers'| && servers'[j].inTime && !servers'[j].detached
      ensures Reaches(fetched, ran, servers'[j], j)
    {
      assert Reaches(fetched, ran, servers[j], j);
    }
    forall j | 0 <= j < |servers'| && !servers'[j].inTime ensures Misses(fetched, ran, servers'[j], j) {
      assert Misses(fetched, ran, servers[j], j);
    }
  }

  lemma DetachInv(s: State, k: nat)
    requires Inv(s) && k < |s.servers| && !s.servers[k].detached && s.servers[k].session in s.finalizing
    ensures Inv(DetachStep(s, k))
  {
    var c := s.servers[k].connection;
    DetachLinks(s.connections, s.servers, s.log, k);
    DetachTold(s.fetched, s.ran, s.servers, s.finalizing, k);
    assert PidsOk(s.list, Release(s.connections, c));
    assert FlagsOk(Release(s.connections, c), s.log, s.fetched, s.ran);
  }

  /** Nothing but the flags of the Servers changes. */
  lemma FlagServers(s: State, servers: seq<Server>, finalizing: set<nat>)
    requires Inv(s) && |servers| == |s.servers| && s.finalizing <= finalizing
    requires forall k | 0 <= k < |servers| ::
               && servers[k] == s.servers[k].(connected := servers[k].connected, closing := servers[k].closing)
               && (servers[k].closing ==> s.servers[k].closing || servers[k].session in finalizing)
    ensures Inv(s.(servers := servers, finalizing := finalizing))
  {
    assert LinksOk(s.connections, servers, s.log);
    forall j | 0 <= j < |servers| && servers[j].inTime && !servers[j].detached
      ensures Reaches(s.fetched, s.ran, servers[j], j)
    {
      assert Reaches(s.fetched, s.ran, s.servers[j], j);
    }
    forall j | 0 <= j < |servers| && !servers[j].inTime ensures Misses(s.fetched, s.ran, servers[j], j) {
      assert Misses(s.fetched, s.ran, s.servers[j], j);
    }
    assert ToldOk(s.fetched, s.ran, servers);
  }

  lemma LoseInv(s: State, k: nat)
    requires Inv(s) && Enabled(s, LoseServer(k))
    ensures Inv(LoseStep(s, k))
  {
    var servers := s.servers[k := s.servers[k].(connected := false)];
    var session := s.servers[k].session;
    FlagServers(s, servers, s.finalizing);
    if session !in s.finalizing {
      FlagServers(s, servers, s.finalizing + {session});
      DetachInv(s.(servers := servers, finalizing := s.finalizing + {session}), k);
    }
  }

  lemma FinalizeInv(s: State, session: nat)
    requires Inv(s)
    ensures Inv(FinalizeStep(s, session))
  {
    if session !in s.finalizing {
      FlagServers(s, FinalizeStep(s, session).servers, s.finalizing + {session});
    }
  }

  lemma AcceptInv(s: State, pid: int)
    requires Inv(s)
    ensures Inv(Step(s, Accept(pid)))
  {
    var s' := Step(s, Accept(pid));
    assert FlagsOk(s'.connections, s'.log, s'.fetched, s'.ran);
    assert LinksOk(s'.connections, s'.servers, s'.log);
  }

  lemma StepInv(s: State, a: Action)
    requires Inv(s) && Enabled(s, a)
    ensures Inv(Step(s, a))
  {
    match a {
      case Accept(pid) => AcceptInv(s, pid);
      case Register(c) => RegisterInv(s, c);
      case LookUp(session, c) => RemainingHas(s.log, s.ran);
      case Attach(session, c) => AttachInv(s, session, c);
      case Fetch(c) => FetchInv(s, c);
      case Disconnect(c) => if s.fetched[c] == Own { OwnDisconnectInv(s, c); } else { ServerDisconnectInv(s, c); }
      case LoseServer(k) => LoseInv(s, k);
      case Finalize(session) => FinalizeInv(s, session);
      case Detach(k) => DetachInv(s, k);
    }
  }

  lemma {:induction false} RunInv(run: seq<State>, i: nat)
    requires IsRun(run) && i < |run|
    ensures Inv(run[i])
  {
    if i > 0 {
      RunInv(run, i - 1);
      assert NextAt(run, i);
      var a :| Enabled(run[i - 1], a) && run[i] == Step(run[i - 1], a);
      StepInv(run[i - 1], a);
    }
  }

  // ----- over every run -----

  /** The list holds, oldest first, the connections that were registered and have not
      disconnected; their pids differ. */
  lemma ListHoldsTheConnected(run: seq<State>, i: nat)
    requires IsRun(run) && i < |run|
    ensures run[i].list == Remaining(run[i].log, run[i].ran) && Distinct(run[i].log)
    ensures forall c <- run[i].list ::
              c < |run[i].connections| && !run[i].connections[c].disconnected && c !in run[i].ran
    ensures forall c, d | c in run[i].list && d in run[i].list && c != d ::
              run[i].connections[c].pid != run[i].connections[d].pid
  {
    RunInv(run, i);
    RemainingHas(run[i].log, run[i].ran);
  }

  /** `log` is the order of registration: it only grows, at its end. */
  lemma {:induction false} LogGrows(run: seq<State>, i: nat, j: nat)
    requires IsRun(run) && i <= j < |run|
    ensures run[i].log <= run[j].log
    decreases j - i
  {
    if i < j {
      LogGrows(run, i, j - 1);
      assert NextAt(run, j);
      var a :| Enabled(run[j - 1], a) && run[j] == Step(run[j - 1], a);
      assert run[j - 1].log <= run[j].log;
    }
  }

  /** A Server that is told to disconnect always finds its connection in the list. */
  lemma RemovalNeverMisses(run: seq<State>, i: nat, c: nat)
    requires IsRun(run) && i < |run| && Enabled(run[i], Disconnect(c))
    ensures run[i].fetched[c].Of? ==>
              run[i].fetched[c].server < |run[i].servers| && run[i].servers[run[i].fetched[c].server].connection == c
    ensures run[i].fetched[c].Of? || run[i].connections[c].server.Some? ==> c in run[i].list
  {
    RunInv(run, i);
    RemainingHas(run[i].log, run[i].ran);
  }

  /** No session has two Servers; no connection has two that are attached, and the one it has
      is the one that handles its messages. */
  lemma OneServerEach(run: seq<State>, i: nat)
    requires IsRun(run) && i < |run|
    ensures forall j, k | 0 <= j < k < |run[i].servers| :: run[i].servers[j].session != run[i].servers[k].session
    ensures forall j, k | 0 <= j < k < |run[i].servers| && !run[i].servers[j].detached && !run[i].servers[k].detached ::
              run[i].servers[j].connection != run[i].servers[k].connection
    ensures forall k | 0 <= k < |run[i].servers| && !run[i].servers[k].detached ::
              var c := run[i].servers[k].connection;
              c < |run[i].connections| && run[i].connections[c].server == Some(k)
                && run[i].connections[c].handlers == Of(k)
  {
    RunInv(run, i);
  }

  lemma StepKeepsServers(s: State, a: Action, k: nat)
    requires Enabled(s, a) && k < |s.servers|
    ensures k < |Step(s, a).servers|
    ensures Step(s, a).servers[k].connection == s.servers[k].connection
            && Step(s, a).servers[k].inTime == s.servers[k].inTime
  {
  }

  lemma {:induction false} KeepsServers(run: seq<State>, i: nat, j: nat, k: nat)
    requires IsRun(run) && i <= j < |run| && k < |run[i].servers|
    ensures k < |run[j].servers|
    ensures run[j].servers[k].connection == run[i].servers[k].connection
            && run[j].servers[k].inTime == run[i].servers[k].inTime
    decreases j - i
  {
    if i < j {
      KeepsServers(run, i, j - 1, k);
      assert NextAt(run, j);
      var a :| Enabled(run[j - 1], a) && run[j] == Step(run[j - 1], a);
      StepKeepsServers(run[j - 1], a, k);
    }
  }

  /** A session that attached to a connection hears of its disconnect if, and only if, when it
      attached, the connection was still in the list and its disconnect handler had not been
      looked up while another Server was attached. */
  lemma LossIsNoticed(run: seq<State>, i: nat, j: nat, session: nat, c: nat)
    requires IsRun(run) && i < j < |run|
    requires Enabled(run[i], Attach(session, c)) && run[i + 1] == Step(run[i], Attach(session, c))
             && run[i + 1] != run[i]
    requires c in run[j].ran && |run[i].servers| < |run[j].servers|
    requires !run[j].servers[|run[i].servers|].detached
    ensures run[j].servers[|run[i].servers|].told <==> InTime(run[i], c)
  {
    var k := |run[i].servers|;
    KeepsServers(run, i + 1, j, k);
    RunInv(run, j);
    assert run[i + 1].servers[k].connection == c && run[i + 1].servers[k].inTime == InTime(run[i], c);
    if InTime(run[i], c) {
      assert Reaches(run[j].fetched, run[j].ran, run[j].servers[k], k);
    } else {
      assert Misses(run[j].fetched, run[j].ran, run[j].servers[k], k);
    }
  }

  lemma Extend(run: seq<State>, a: Action) returns (longer: seq<State>)
    requires IsRun(run) && Enabled(run[|run| - 1], a)
    ensures IsRun(longer) && longer[|longer| - 1] == Step(run[|run| - 1], a)
  {
    var s := run[|run| - 1];
    assert Enabled(s, a) && Step(s, a) == Step(s, a);
    assert Next(s, Step(s, a));
    longer := run + [Step(s, a)];
    forall i | 0 < i < |longer| ensures NextAt(longer, i) {
      if i < |run| {
        assert NextAt(run, i);
      }
    }
  }

  /** One connection, registered and looked up by sessions 1 and 2. */
  lemma TwoLookUps() returns (run: seq<State>)
    ensures IsRun(run)
    ensures run[|run| - 1] == State([Connection(7, true, false, None, Own)], [], [0], [0], map[], {}, {},
                                    {(1, 0), (2, 0)})
  {
    run := Extend([INIT], Accept(7));
    assert run[|run| - 1] == State([Connection(7, false, false, None, Own)], [], [], [], map[], {}, {}, {});
    run := Extend(run, Register(0));
    assert run[|run| - 1] == State([Connection(7, true, false, None, Own)], [], [0], [0], map[], {}, {}, {});
    run := Extend(run, LookUp(1, 0));
    run := Extend(run, LookUp(2, 0));
  }

  /** The connection disconnects after it was looked up: attach_to_session does not check. */
  lemma AttachedTooLate() returns (run: seq<State>)
    ensures IsRun(run)
    ensures var s := run[|run| - 1];
            && s.list == [] && 0 in s.ran
            && s.connections == [Connection(7, true, true, Some(0), Of(0))]
            && s.servers == [Server(1, 0, true, false, false, false, false)]
  {
    run := TwoLookUps();
    run := Extend(run, Fetch(0));
    run := Extend(run, Disconnect(0));
    assert run[|run| - 1] ==
           State([Connection(7, true, true, None, Own)], [], [], [0], map[0 := Own], {0}, {}, {(1, 0), (2, 0)});
    run := Extend(run, Attach(1, 0));
  }

  /** The handler that runs is that of a Server detached since: the session attached now is not
      told, although the connection was in the list and not marked as disconnected. */
  lemma ToldTheWrongServer() returns (run: seq<State>)
    ensures IsRun(run)
    ensures var s := run[|run| - 1];
            && s.list == [] && 0 in s.ran
            && s.connections == [Connection(7, true, false, Some(1), Of(1))]
            && |s.servers| == 2 && s.servers[1] == Server(2, 0, true, false, false, false, false)
  {
    run := DetachedAfterLookUp();
    run := Extend(run, Attach(2, 0));
    run := Extend(run, Disconnect(0));
  }

  /** Session 1 attached, the disconnect handler of its Server was looked up, and the Server was
      detached. */
  lemma DetachedAfterLookUp() returns (run: seq<State>)
    ensures IsRun(run)
    ensures run[|run| - 1] ==
            State([Connection(7, true, false, None, Own)], [Server(1, 0, false, true, true, false, true)], [0], [0],
                  map[0 := Of(0)], {}, {1}, {(1, 0), (2, 0)})
  {
    run := TwoLookUps();
    run := Extend(run, Attach(1, 0));
    assert run[|run| - 1] ==
           State([Connection(7, true, false, Some(0), Of(0))], [Server(1, 0, true, false, false, false, true)],
                 [0], [0], map[], {}, {}, {(1, 0), (2, 0)});
    run := Extend(run, Fetch(0));
    run := Extend(run, Finalize(1));
    assert run[|run| - 1] ==
           State([Connection(7, true, false, Some(0), Of(0))], [Server(1, 0, true, true, false, false, true)], [0], [0],
                 map[0 := Of(0)], {}, {1}, {(1, 0), (2, 0)});
    run := Extend(run, Detach(0));
  }

  // ----- the module's variables and the functions on them -----

  class Adapter {
    var connections: seq<Connection>
    var servers: seq<Server>
    var list: seq<nat>
    var finalizing: set<nat>
    // history: what was registered, and which handlers were looked up and called
    var log: seq<nat>
    var fetched: map<nat, Handler>
    var ran: set<nat>
    var lookedUp: set<(nat, nat)>

    function Now(): State
      reads this
    {
      State(connections, servers, list, log, fetched, ran, finalizing, lookedUp)
    }

    /** The end of Connection.__init__, under the lock. */
    method Register(c: nat) returns (raised: bool)
      requires Enabled(Now(), Action.Register(c))
      modifies this
      ensures Now() == RegisterStep(old(Now()), c)
      ensures raised <==> !old(connections)[c].disconnected && PidTaken(old(Now()), old(connections)[c].pid)
    {
      raised := false;
      ghost var s := Now();
      connections := connections[c := connections[c].(settled := true)];
      if connections[c].disconnected {
        return;
      }
      for i := 0 to |list|
        invariant Now() == s.(connections := connections)
        invariant forall d <- list[..i] :: d < |s.connections| ==> s.connections[d].pid != s.connections[c].pid
      {
        if list[i] < |connections| && connections[list[i]].pid == connections[c].pid {
          assert list[i] in s.list && s.connections[list[i]].pid == s.connections[c].pid;
          return true;
        }
      }
      assert list[..|list|] == list;
      list := list + [c];
      log := log + [c];
    }

    /** `_connections.remove(c)`: the first one that is equal. */
    method Remove(c: nat) returns (found: bool)
      modifies `list
      ensures list == Sequences.Remove(old(list), c)
      ensures found <==> c in old(list)
    {
      for i := 0 to |list|
        invariant list == old(list) && c !in list[..i]
        invariant Sequences.Remove(list, c) == list[..i] + Sequences.Remove(list[i..], c)
      {
        if list[i] == c {
          assert list[i..][0] == c && list[i..][1..] == list[i + 1..];
          list := list[..i] + list[i + 1..];
          return true;
        }
        assert list[i..][0] == list[i] && list[i..][1..] == list[i + 1..];
        assert list[..i] + ([list[i]] + Sequences.Remove(list[i + 1..], c)) ==
               list[..i + 1] + Sequences.Remove(list[i + 1..], c);
      }
      assert list[|list|..] == [] && list[..|list|] == list;
      return false;
    }

    /** The disconnect handler that was looked up for `c`. */
    method Disconnect(c: nat)
      requires Inv(Now()) && Enabled(Now(), Action.Disconnect(c))
      modifies this
      ensures Now() == DisconnectStep(old(Now()), c)
    {
      RemainingHas(log, ran);
      match fetched[c] {
        case Own =>
          connections := connections[c := connections[c].(disconnected := true)];
          ran := ran + {c};
          if connections[c].server.Some? {
            DisconnectServer(connections[c].server.value);
          } else if c in list {
            var found := Remove(c);
          }
        case Of(k) =>
          ran := ran + {c};
          DisconnectServer(k);
      }
    }

    /** Server.disconnect, the part under the lock. remove() would raise if it found nothing. */
    method DisconnectServer(k: nat)
      requires k < |servers| && servers[k].connection in list
      modifies this
      ensures Now() == TellServer(old(Now()), k)
    {
      var found := Remove(servers[k].connection);
      assert found;
      servers := servers[k := servers[k].(told := true)];
    }

    method AttachToSession(session: nat, c: nat) returns (attached: bool)
      requires c < |connections|
      modifies this
      ensures Now() == AttachStep(old(Now()), session, c)
      ensures attached <==> old(connections)[c].server.None? && !HasServer(old(servers), session)
    {
      if connections[c].server.Some? {
        return false; // ValueError
      }
      if exists v <- servers :: v.session == session {
        return false; // AssertionError
      }
      var k := |servers|;
      servers := servers + [Server(session, c, true, false, false, false,
                                   c in list && (c !in fetched || fetched[c] == Own))];
      connections := connections[c := connections[c].(server := Some(k), handlers := Of(k))];
      return true;
    }

    method DetachFromSession(k: nat)
      requires k < |servers| && servers[k].connection < |connections|
      modifies this
      ensures Now() == DetachStep(old(Now()), k)
    {
      var c := servers[k].connection;
      servers := servers[k := servers[k].(connected := false, detached := true)];
      connections := connections[c := connections[c].(server := None, handlers := Own)];
    }

    /** One pass of wait_for_connection: it returns when some connection matches, with the one
        that was registered first, or when the time is up; else it waits for a change. */
    method WaitForConnection(matches: Connection -> bool, timedOut: bool) returns (done: bool, r: Option<nat>)
      requires Inv(Now())
      ensures forall c <- log :: c < |connections|
      ensures r.None? <==> forall c <- list :: !matches(connections[c])
      ensures r.Some? ==> r.value in list && matches(connections[r.value])
      ensures r.Some? ==> forall c <- log[..Find(log, r.value)] ::
                c < |connections| && (c in ran || !matches(connections[c]))
      ensures done <==> r.Some? || timedOut
    {
      for i := 0 to |list|
        invariant forall c <- list[..i] :: c in list
        invariant forall c <- list[..i] :: !matches(connections[c])
      {
        assert list[i] in list;
        if matches(connections[list[i]]) {
          Earlier(log, ran, i);
          return true, Some(list[i]);
        }
      }
      assert list[..|list|] == list;
      return timedOut, None;
    }
  }

  /** What was registered before an element of the list and has not disconnected comes before it
      in the list. */
  lemma {:induction false} Earlier(log: seq<nat>, ran: set<nat>, i: nat)
    requires Distinct(log) && i < |Remaining(log, ran)|
    ensures var c := Remaining(log, ran)[i];
            forall d <- log[..Find(log, c)] :: d in ran || d in Remaining(log, ran)[..i]
    decreases |log|
  {
    var last := |log| - 1;
    var before := log[..last];
    var rest := Remaining(before, ran);
    RemainingHas(before, ran);
    RemainingHas(log, ran);
    var c := Remaining(log, ran)[i];
    var p := Find(log, c);
    if i < |rest| {
      Earlier(before, ran, i);
      SamePosition(log, c, Find(before, c));
      assert log[..p] == before[..p];
      assert Remaining(log, ran)[..i] == rest[..i];
    } else {
      SamePosition(log, c, last);
      assert log[..p] == before;
      assert Remaining(log, ran)[..i] == rest;
    }
  }

  lemma SamePosition(xs: seq<nat>, x: nat, i: nat)
    requires Distinct(xs) && i < |xs| && xs[i] == x
    ensures Find(xs, x) == i
  {
    assert x in xs;
  }
}
