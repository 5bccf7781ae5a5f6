/** The connections, the list of them and the Servers of the adapter, from the actions of a run. */
module ServerHistory {
  import opened Options
  import opened Histories
  import opened Servers

  /** The actions that a run takes, one between each state and the next. */
  predicate Schedules(run: seq<State>, acts: seq<Action>) {
    && |run| == |acts| + 1
    && run[0] == INIT
    && forall j | 0 <= j < |acts| :: Takes(run, acts, j)
  }

  predicate Takes(run: seq<State>, acts: seq<Action>, j: nat)
    requires j < |acts| && |run| == |acts| + 1
  {
    Enabled(run[j], acts[j]) && run[j + 1] == Step(run[j], acts[j])
  }

  lemma ScheduledIsRun(run: seq<State>, acts: seq<Action>)
    requires Schedules(run, acts)
    ensures IsRun(run)
  {
    forall i | 0 < i < |run| ensures NextAt(run, i) {
      assert Takes(run, acts, i - 1);
    }
  }

  /** Every run has its actions. */
  lemma {:induction false} RunIsScheduled(run: seq<State>) returns (acts: seq<Action>)
    requires IsRun(run)
    ensures Schedules(run, acts)
    decreases |run|
  {
    acts := [];
    if |run| > 1 {
      var n := |run| - 1;
      forall i | 0 < i < n ensures NextAt(run[..n], i) {
        assert NextAt(run, i);
      }
      var before := RunIsScheduled(run[..n]);
      assert NextAt(run, n);
      var a :| Enabled(run[n - 1], a) && run[n] == Step(run[n - 1], a);
      acts := before + [a];
      ScheduleNext(run, before, a);
    }
  }

  lemma ScheduleNext(run: seq<State>, acts: seq<Action>, a: Action)
    requires |run| > 1 && Schedules(run[..|run| - 1], acts)
    requires Enabled(run[|run| - 2], a) && run[|run| - 1] == Step(run[|run| - 2], a)
    ensures Schedules(run, acts + [a])
  {
    forall j | 0 <= j < |acts| + 1 ensures Takes(run, acts + [a], j) {
      if j < |acts| {
        assert Takes(run[..|run| - 1], acts, j);
      }
    }
  }

  /** An action, and the state in which it is taken. */
  type Moment = (State, Action)

  function Past(run: seq<State>, acts: seq<Action>, i: nat): seq<Moment>
    requires i <= |acts| && |run| == |acts| + 1
  {
    seq(i, j requires 0 <= j < i => (run[j], acts[j]))
  }

  lemma ScheduledStep(run: seq<State>, acts: seq<Action>, i: nat)
    requires Schedules(run, acts) && i < |acts|
    ensures Inv(run[i]) && Enabled(run[i], acts[i]) && run[i + 1] == Step(run[i], acts[i])
    ensures Past(run, acts, i + 1) == Past(run, acts, i) + [(run[i], acts[i])]
  {
    assert Takes(run, acts, i);
    ScheduledIsRun(run, acts);
    RunInv(run, i);
  }

  // ----- connections -----

  function PidBy(p: Moment): seq<int> {
    if p.1.Accept? then [p.1.pid] else []
  }

  function Pids(connections: seq<Connection>): seq<int> {
    seq(|connections|, c requires 0 <= c < |connections| => connections[c].pid)
  }

  predicate Settles(p: Moment, c: nat) {
    p.1 == Register(c)
  }

  function SettlesOf(c: nat): Moment -> bool {
    (p: Moment) => Settles(p, c)
  }

  /** The connection's own disconnect handler runs. */
  predicate Disconnects(p: Moment, c: nat) {
    p.1 == Disconnect(c) && c in p.0.fetched && p.0.fetched[c] == Own
  }

  function DisconnectsOf(c: nat): Moment -> bool {
    (p: Moment) => Disconnects(p, c)
  }

  predicate Runs(p: Moment, c: nat) {
    p.1 == Disconnect(c)
  }

  function RunsOf(c: nat): Moment -> bool {
    (p: Moment) => Runs(p, c)
  }

  /** The connection has a Server that is attached to it: one that is not detached. */
  predicate AttachedTo(s: State, k: nat, c: nat) {
    k < |s.servers| && s.servers[k].connection == c && !s.servers[k].detached
  }

  /** Who handles the messages of a connection: the Server attached to it, or, without one, itself. */
  predicate Handles(s: State, c: nat, h: Handler) {
    if h.Of? then AttachedTo(s, h.server, c) else forall k | 0 <= k < |s.servers| :: !AttachedTo(s, k, c)
  }

  /** A disconnect handler is looked up: that of who handles the messages then. */
  predicate Fetches(p: Moment, c: nat, h: Handler) {
    p.1 == Fetch(c) && Handles(p.0, c, h)
  }

  function FetchesOf(c: nat, h: Handler): Moment -> bool {
    (p: Moment) => Fetches(p, c, h)
  }

  lemma HandlesIff(s: State, c: nat, h: Handler)
    requires LinksOk(s.connections, s.servers, s.log) && c < |s.connections|
    ensures s.connections[c].handlers == h <==> Handles(s, c, h)
  {
    if s.connections[c].server.Some? {
      assert AttachedTo(s, s.connections[c].server.value, c);
    }
  }

  /** What a step does to connection `c`. */
  lemma StepConnection(s: State, a: Action, c: nat)
    requires Inv(s) && Enabled(s, a) && c < |s.connections|
    ensures var s' := Step(s, a);
            && c < |s'.connections|
            && (s'.connections[c].settled <==> s.connections[c].settled || Settles((s, a), c))
            && (s'.connections[c].disconnected <==> s.connections[c].disconnected || Disconnects((s, a), c))
  {
  }

  lemma StepAccepts(s: State, a: Action)
    requires Enabled(s, a)
    ensures Pids(Step(s, a).connections) == Pids(s.connections) + PidBy((s, a))
    ensures a.Accept? ==> Step(s, a).connections == s.connections + [Connection(a.pid, false, false, None, Own)]
  {
  }

  lemma StepFetched(s: State, a: Action, c: nat, h: Handler)
    requires Inv(s) && Enabled(s, a)
    ensures var s' := Step(s, a);
            && (c in s'.ran <==> c in s.ran || Runs((s, a), c))
            && (c in s'.fetched && s'.fetched[c] == h <==>
                (c in s.fetched && s.fetched[c] == h) || Fetches((s, a), c, h))
  {
    if a == Fetch(c) {
      HandlesIff(s, c, h);
    }
  }

  /** A new connection takes nothing over. */
  lemma NothingYet(s: State, c: nat)
    requires Inv(s) && c >= |s.connections|
    ensures c !in s.fetched && c !in s.ran && c !in s.log
  {
  }

  /** The connections are the accepted ones, with their pids. A connection is settled exactly if it
      came to be registered, and marked as disconnected exactly if its own handler ran; and the
      handler that was looked up is that of who handled its messages then. */
  lemma {:induction false} ConnectionsAre(run: seq<State>, acts: seq<Action>, i: nat, c: nat, h: Handler)
    requires Schedules(run, acts) && i <= |acts|
    ensures Pids(run[i].connections) == Collected(Past(run, acts, i), PidBy)
    ensures c < |run[i].connections| && run[i].connections[c].settled <==> Ever(Past(run, acts, i), SettlesOf(c))
    ensures c < |run[i].connections| && run[i].connections[c].disconnected <==>
            Ever(Past(run, acts, i), DisconnectsOf(c))
    ensures c in run[i].ran <==> Ever(Past(run, acts, i), RunsOf(c))
    ensures c in run[i].fetched && run[i].fetched[c] == h <==> Ever(Past(run, acts, i), FetchesOf(c, h))
  {
    if i > 0 {
      ConnectionsAre(run, acts, i - 1, c, h);
      ScheduledStep(run, acts, i - 1);
      ConnectionStep(run[i - 1], acts[i - 1], Past(run, acts, i - 1), c);
      FetchedStep(run[i - 1], acts[i - 1], Past(run, acts, i - 1), c, h);
      CollectedNext(Past(run, acts, i - 1), (run[i - 1], acts[i - 1]), PidBy);
      StepAccepts(run[i - 1], acts[i - 1]);
    }
  }

  lemma ConnectionStep(s: State, a: Action, past: seq<Moment>, c: nat)
    requires Inv(s) && Enabled(s, a)
    requires c < |s.connections| && s.connections[c].settled <==> Ever(past, SettlesOf(c))
    requires c < |s.connections| && s.connections[c].disconnected <==> Ever(past, DisconnectsOf(c))
    ensures var s', now := Step(s, a), past + [(s, a)];
            && (c < |s'.connections| && s'.connections[c].settled <==> Ever(now, SettlesOf(c)))
            && (c < |s'.connections| && s'.connections[c].disconnected <==> Ever(now, DisconnectsOf(c)))
  {
    EverNext(past, (s, a), SettlesOf(c));
    EverNext(past, (s, a), DisconnectsOf(c));
    StepAccepts(s, a);
    if c < |s.connections| {
      StepConnection(s, a, c);
    } else {
      assert |Step(s, a).connections| == |Pids(Step(s, a).connections)|;
    }
  }

  lemma FetchedStep(s: State, a: Action, past: seq<Moment>, c: nat, h: Handler)
    requires Inv(s) && Enabled(s, a)
    requires c in s.ran <==> Ever(past, RunsOf(c))
    requires c in s.fetched && s.fetched[c] == h <==> Ever(past, FetchesOf(c, h))
    ensures var s', now := Step(s, a), past + [(s, a)];
            && (c in s'.ran <==> Ever(now, RunsOf(c)))
            && (c in s'.fetched && s'.fetched[c] == h <==> Ever(now, FetchesOf(c, h)))
  {
    EverNext(past, (s, a), RunsOf(c));
    EverNext(past, (s, a), FetchesOf(c, h));
    StepFetched(s, a, c, h);
  }

  // ----- the list -----

  /** The connection that is registered: it has not disconnected, and none in the list has its
      pid. */
  function RegisteredBy(p: Moment): seq<nat> {
    if p.1.Register? && p.1.conn < |p.0.connections| && !p.0.connections[p.1.conn].disconnected
      && forall d <- p.0.list | d < |p.0.connections| :: p.0.connections[d].pid != p.0.connections[p.1.conn].pid
    then [p.1.conn] else []
  }

  lemma StepRegistered(s: State, a: Action)
    requires Enabled(s, a)
    ensures Step(s, a).log == s.log + RegisteredBy((s, a))
  {
    assert s.log + [] == s.log;
  }

  /** What was registered, in order, is every connection that came to be registered before it
      disconnected, when no other in the list had its pid. */
  lemma {:induction false} RegisteredAre(run: seq<State>, acts: seq<Action>, i: nat)
    requires Schedules(run, acts) && i <= |acts|
    ensures run[i].log == Collected(Past(run, acts, i), RegisteredBy)
  {
    if i > 0 {
      RegisteredAre(run, acts, i - 1);
      ScheduledStep(run, acts, i - 1);
      StepRegistered(run[i - 1], acts[i - 1]);
      CollectedNext(Past(run, acts, i - 1), (run[i - 1], acts[i - 1]), RegisteredBy);
    }
  }

  // ----- Servers -----

  /** The session and connection of the Server that is made: no Server is attached to the connection,
      and the session never had one. */
  function AttachedBy(p: Moment): seq<(nat, nat)> {
    if p.1.Attach? && (forall k | 0 <= k < |p.0.servers| :: !AttachedTo(p.0, k, p.1.conn))
      && forall k | 0 <= k < |p.0.servers| :: p.0.servers[k].session != p.1.session
    then [(p.1.session, p.1.conn)] else []
  }

  function SessionsAndConnections(servers: seq<Server>): seq<(nat, nat)> {
    seq(|servers|, k requires 0 <= k < |servers| => (servers[k].session, servers[k].connection))
  }

  lemma StepAttached(s: State, a: Action)
    requires Inv(s) && Enabled(s, a)
    ensures SessionsAndConnections(Step(s, a).servers) == SessionsAndConnections(s.servers) + AttachedBy((s, a))
  {
    if a.Attach? {
      AttachMakes(s, a.session, a.conn);
    } else {
      SameServers(s, a);
    }
  }

  lemma AttachMakes(s: State, session: nat, c: nat)
    requires LinksOk(s.connections, s.servers, s.log) && c < |s.connections|
    ensures SessionsAndConnections(AttachStep(s, session, c).servers) ==
            SessionsAndConnections(s.servers) + AttachedBy((s, Attach(session, c)))
  {
    HandlesIff(s, c, Own);
    assert HasServer(s.servers, session) <==> exists k | 0 <= k < |s.servers| :: s.servers[k].session == session;
  }

  lemma SameServers(s: State, a: Action)
    requires Enabled(s, a) && !a.Attach?
    ensures |Step(s, a).servers| == |s.servers|
    ensures forall k | 0 <= k < |s.servers| ::
              Step(s, a).servers[k].session == s.servers[k].session
              && Step(s, a).servers[k].connection == s.servers[k].connection
  {
  }

  /** A Server is made whenever a session attaches to a connection that no Server is attached to, and
      it never had one. */
  lemma {:induction false} ServersAre(run: seq<State>, acts: seq<Action>, i: nat)
    requires Schedules(run, acts) && i <= |acts|
    ensures SessionsAndConnections(run[i].servers) == Collected(Past(run, acts, i), AttachedBy)
  {
    if i > 0 {
      ServersAre(run, acts, i - 1);
      ScheduledStep(run, acts, i - 1);
      StepAttached(run[i - 1], acts[i - 1]);
      CollectedNext(Past(run, acts, i - 1), (run[i - 1], acts[i - 1]), AttachedBy);
    }
  }

  /** The Server is detached: at the end of its session's finalization, which its own disconnect
      starts unless that has begun before. */
  predicate Detaches(p: Moment, k: nat) {
    p.1 == Detach(k)
    || (p.1 == LoseServer(k) && k < |p.0.servers| && p.0.servers[k].session !in p.0.finalizing)
  }

  function DetachesOf(k: nat): Moment -> bool {
    (p: Moment) => Detaches(p, k)
  }

  /** The Server is not connected any more. */
  predicate Loses(p: Moment, k: nat) {
    p.1 == Detach(k) || p.1 == LoseServer(k)
  }

  function LosesOf(k: nat): Moment -> bool {
    (p: Moment) => Loses(p, k)
  }

  /** The session of the Server begins to finalize for another reason. */
  predicate CloseBegins(p: Moment, k: nat) {
    k < |p.0.servers| && p.1 == Finalize(p.0.servers[k].session) && p.0.servers[k].session !in p.0.finalizing
  }

  function CloseBeginsOf(k: nat): Moment -> bool {
    (p: Moment) => CloseBegins(p, k)
  }

  /** The disconnect handler that was looked up is that of the Server, or of the connection whose
      Server it is now. */
  predicate Tells(p: Moment, k: nat) {
    && p.1.Disconnect? && p.1.conn in p.0.fetched
    && (p.0.fetched[p.1.conn] == Of(k) || (p.0.fetched[p.1.conn] == Own && AttachedTo(p.0, k, p.1.conn)))
  }

  function TellsOf(k: nat): Moment -> bool {
    (p: Moment) => Tells(p, k)
  }

  predicate Finalizes(p: Moment, session: nat) {
    || p.1 == Finalize(session)
    || (p.1.LoseServer? && p.1.server < |p.0.servers| && p.0.servers[p.1.server].session == session)
  }

  function FinalizesOf(session: nat): Moment -> bool {
    (p: Moment) => Finalizes(p, session)
  }

  /** What a step does to the flags of Server `k`. */
  predicate FlagsMove(s: State, a: Action, k: nat, v: Server, v': Server) {
    && (v'.detached <==> v.detached || Detaches((s, a), k))
    && (v'.connected <==> v.connected && !Loses((s, a), k))
    && (v'.closing <==> v.closing || CloseBegins((s, a), k))
  }

  lemma StepServer(s: State, a: Action, k: nat)
    requires Enabled(s, a) && k < |s.servers|
    ensures FlagsMove(s, a, k, s.servers[k], Step(s, a).servers[k])
  {
    match a
    case Finalize(session) =>
    case LoseServer(n) =>
    case Detach(n) =>
    case Disconnect(c) => DisconnectKeepsFlags(s, c, k);
    case _ =>
  }

  lemma DisconnectKeepsFlags(s: State, c: nat, k: nat)
    requires Enabled(s, Disconnect(c)) && k < |s.servers|
    ensures k < |DisconnectStep(s, c).servers|
    ensures var v, v' := s.servers[k], DisconnectStep(s, c).servers[k];
            v'.detached == v.detached && v'.connected == v.connected && v'.closing == v.closing
  {
  }

  lemma StepTold(s: State, a: Action, k: nat)
    requires Inv(s) && Enabled(s, a) && k < |s.servers|
    ensures Step(s, a).servers[k].told <==> s.servers[k].told || Tells((s, a), k)
  {
    if a.Disconnect? {
      HandlesIff(s, a.conn, Of(k));
    }
  }

  lemma StepFinalizing(s: State, a: Action, session: nat)
    requires Enabled(s, a)
    ensures session in Step(s, a).finalizing <==> session in s.finalizing || Finalizes((s, a), session)
  {
  }

  predicate FlagsAgree(v: Server, past: seq<Moment>, k: nat) {
    && (v.detached <==> Ever(past, DetachesOf(k)))
    && (v.connected <==> !Ever(past, LosesOf(k)))
    && (v.closing <==> Ever(past, CloseBeginsOf(k)))
    && (v.told <==> Ever(past, TellsOf(k)))
  }

  const NEW := Server(0, 0, true, false, false, false, false)

  lemma FlagsNext(v: Server, v': Server, s: State, a: Action, past: seq<Moment>, k: nat)
    requires FlagsAgree(v, past, k) && FlagsMove(s, a, k, v, v') && (v'.told <==> v.told || Tells((s, a), k))
    ensures FlagsAgree(v', past + [(s, a)], k)
  {
    EverNext(past, (s, a), DetachesOf(k));
    EverNext(past, (s, a), LosesOf(k));
    EverNext(past, (s, a), CloseBeginsOf(k));
    EverNext(past, (s, a), TellsOf(k));
  }

  /** Nothing happens to a Server before or when it is made. */
  lemma NotYet(s: State, a: Action, k: nat)
    requires Inv(s) && Enabled(s, a) && k >= |s.servers|
    ensures FlagsMove(s, a, k, NEW, NEW) && !Tells((s, a), k)
  {
  }

  lemma NewFlags(s: State, a: Action, k: nat)
    requires Enabled(s, a) && |s.servers| <= k < |Step(s, a).servers|
    ensures var v := Step(s, a).servers[k]; !v.detached && v.connected && !v.closing && !v.told
  {
    if !a.Attach? {
      SameServers(s, a);
    }
  }

  lemma {:induction false} NotBefore(run: seq<State>, acts: seq<Action>, i: nat, k: nat)
    requires Schedules(run, acts) && i <= |acts| && k >= |run[i].servers|
    ensures FlagsAgree(NEW, Past(run, acts, i), k)
  {
    if i > 0 {
      ScheduledStep(run, acts, i - 1);
      var s, a := run[i - 1], acts[i - 1];
      MoreServers(s, a);
      NotBefore(run, acts, i - 1, k);
      NotYet(s, a, k);
      FlagsNext(NEW, NEW, s, a, Past(run, acts, i - 1), k);
    }
  }

  lemma MoreServers(s: State, a: Action)
    requires Enabled(s, a)
    ensures |Step(s, a).servers| >= |s.servers|
  {
    if !a.Attach? {
      SameServers(s, a);
    }
  }

  /** The flags of a Server: it is detached once Detach came or its own loss began the finalization
      of its session, connected until either came, closing once its session began to finalize for
      another reason; and it has been told exactly if a disconnect handler ran that was its own, or
      its connection's while it was attached. */
  lemma {:induction false} FlagsAre(run: seq<State>, acts: seq<Action>, i: nat, k: nat)
    requires Schedules(run, acts) && i <= |acts| && k < |run[i].servers|
    ensures var v, past := run[i].servers[k], Past(run, acts, i);
            && (v.detached <==> Ever(past, DetachesOf(k)))
            && (v.connected <==> !Ever(past, LosesOf(k)))
            && (v.closing <==> Ever(past, CloseBeginsOf(k)))
            && (v.told <==> Ever(past, TellsOf(k)))
    ensures FlagsAgree(run[i].servers[k], Past(run, acts, i), k)
  {
    ScheduledStep(run, acts, i - 1);
    var s, a, past := run[i - 1], acts[i - 1], Past(run, acts, i - 1);
    if k < |s.servers| {
      FlagsAre(run, acts, i - 1, k);
      StepServer(s, a, k);
      StepTold(s, a, k);
      FlagsNext(s.servers[k], run[i].servers[k], s, a, past, k);
    } else {
      NotBefore(run, acts, i - 1, k);
      NotYet(s, a, k);
      NewFlags(s, a, k);
      FlagsNext(NEW, NEW, s, a, past, k);
    }
  }

  /** A session finalizes exactly once finalize was called for it or its Server was lost. */
  lemma {:induction false} FinalizingIff(run: seq<State>, acts: seq<Action>, i: nat, session: nat)
    requires Schedules(run, acts) && i <= |acts|
    ensures session in run[i].finalizing <==> Ever(Past(run, acts, i), FinalizesOf(session))
  {
    if i > 0 {
      FinalizingIff(run, acts, i - 1, session);
      ScheduledStep(run, acts, i - 1);
      EverNext(Past(run, acts, i - 1), (run[i - 1], acts[i - 1]), FinalizesOf(session));
      StepFinalizing(run[i - 1], acts[i - 1], session);
    }
  }

  // ----- what can happen -----

  predicate LooksUp(p: Moment, session: nat, c: nat) {
    p.1 == LookUp(session, c)
  }

  function LooksUpOf(session: nat, c: nat): Moment -> bool {
    (p: Moment) => LooksUp(p, session, c)
  }

  predicate AnyFetch(p: Moment, c: nat) {
    p.1 == Fetch(c)
  }

  function FetchOf(c: nat): Moment -> bool {
    (p: Moment) => AnyFetch(p, c)
  }

  lemma {:induction false} LookUpsAre(run: seq<State>, acts: seq<Action>, i: nat, session: nat, c: nat)
    requires Schedules(run, acts) && i <= |acts|
    ensures (session, c) in run[i].lookedUp <==> Ever(Past(run, acts, i), LooksUpOf(session, c))
    ensures c in run[i].fetched <==> Ever(Past(run, acts, i), FetchOf(c))
  {
    if i > 0 {
      LookUpsAre(run, acts, i - 1, session, c);
      ScheduledStep(run, acts, i - 1);
      EverNext(Past(run, acts, i - 1), (run[i - 1], acts[i - 1]), LooksUpOf(session, c));
      EverNext(Past(run, acts, i - 1), (run[i - 1], acts[i - 1]), FetchOf(c));
      StepLookUps(run[i - 1], acts[i - 1], session, c);
    }
  }

  lemma StepLookUps(s: State, a: Action, session: nat, c: nat)
    requires Enabled(s, a)
    ensures (session, c) in Step(s, a).lookedUp <==> (session, c) in s.lookedUp || a == LookUp(session, c)
    ensures c in Step(s, a).fetched <==> c in s.fetched || a == Fetch(c)
  {
  }

  /** A connection comes to be registered once; it can be looked up while it is in the list, and
      attached to once it was looked up, and never mind what has happened to it since; its disconnect
      handler is looked up once and runs once, after that; and a Server can be lost once it was told,
      and is detached once if it is closing. */
  lemma PossibleIff(run: seq<State>, acts: seq<Action>, i: nat, session: nat, c: nat, k: nat)
    requires Schedules(run, acts) && i <= |acts|
    ensures c < |run[i].connections| ==>
              (Enabled(run[i], Register(c)) <==> !Ever(Past(run, acts, i), SettlesOf(c)))
    ensures Enabled(run[i], LookUp(session, c)) <==> c in run[i].list
    ensures c < |run[i].connections| ==>
              (Enabled(run[i], Attach(session, c)) <==> Ever(Past(run, acts, i), LooksUpOf(session, c)))
    ensures c < |run[i].connections| ==> (Enabled(run[i], Fetch(c)) <==> !Ever(Past(run, acts, i), FetchOf(c)))
    ensures c < |run[i].connections| ==>
              (Enabled(run[i], Disconnect(c)) <==>
               Ever(Past(run, acts, i), FetchOf(c)) && !Ever(Past(run, acts, i), RunsOf(c)))
    ensures k < |run[i].servers| ==> (Enabled(run[i], LoseServer(k)) <==> Ever(Past(run, acts, i), TellsOf(k)))
    ensures k < |run[i].servers| ==>
              (Enabled(run[i], Detach(k)) <==>
               Ever(Past(run, acts, i), CloseBeginsOf(k)) && !Ever(Past(run, acts, i), DetachesOf(k)))
    ensures Enabled(run[i], Finalize(session))
  {
    ConnectionsAre(run, acts, i, c, Own);
    LookUpsAre(run, acts, i, session, c);
    if k < |run[i].servers| {
      FlagsAre(run, acts, i, k);
    }
  }
}
