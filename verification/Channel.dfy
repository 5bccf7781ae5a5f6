/**
 The state machine of one JsonMessageChannel.

 Every action below is one stretch of code between acquiring and releasing the channel
 lock (or one step of a thread's own program counter), so a run is an arbitrary
 interleaving of the parser thread, the handler threads and any number of client threads.

 Besides the fields of the source the state keeps histories, which no step reads back:
 `wire` and `received` (whole messages that left and entered the channel), `log` (what was
 enqueued) and `taken` (what a handler thread handed to its handler).
 */
module Channel {
  import opened Options
  import opened Sequences

  /** A JSON payload; its text is opaque to the channel. */
  type Payload = string

  datatype Message =
    | Request(num: nat, arguments: Payload)
    | Event(num: nat, body: Payload)
    | Response(num: nat, requestNum: nat, body: Payload)

  /** What an outgoing request is answered with: a body from the peer, or the exception
      that ended the message loop. */
  datatype Reply = Received(body: Payload) | NoMoreMessages

  /** An entry of the handler queue. `at` is a position in `received`. */
  datatype Entry =
    | EventEntry(at: nat)
    | RequestEntry(at: nat)
    | ResponseEntry(request: nat, reply: Reply, handlers: seq<nat>)
    | UnknownResponseEntry(requestNum: nat)
    | DisconnectEntry

  /** A message whose sequence number is taken but which is not written yet. */
  datatype Draft =
    | RequestDraft(arguments: Payload, handlers: seq<nat>)
    | EventDraft(body: Payload)
    | ResponseDraft(at: nat, requestNum: nat, body: Payload)

  /** How writing to the stream ends. An exception may come before the last byte of the
      frame is out, or after it, when flushing. */
  datatype Outcome = Written | Raised(delivered: bool)

  /** An OutgoingRequest. `writes` counts assignments to `response`, `registered` lists all
      handlers ever given to on_response, `returned` tells whether send_request returned. */
  datatype Outgoing = Outgoing(
    response: Option<Reply>, writes: nat, pending: seq<nat>, registered: seq<nat>, returned: bool)

  /** Where an incoming request stands. `Answered` means its response frame is out. */
  datatype Status =
    | Queued
    | Handling
    | Responding(num: nat, body: Payload)
    | Answered(num: nat, body: Payload)
    | Failed(num: nat, body: Payload)

  datatype Parser =
    | Reading
    | Popped(request: nat, body: Payload)
    | PoppedUnknown(requestNum: nat)
    | Finished
    | Crashed

  /** The program counter of a handler thread. */
  datatype Runner =
    | Top
    | Checked(closed: bool)
    | Waiting(notified: bool)
    | Dispatching(closed: bool, rest: seq<Entry>)

  /** A thread blocked in wait_for_response. */
  datatype Waiter = Waiter(request: nat, notified: bool)

  // ----- the handler queue -----

  datatype Queue = Queue(
    entries: seq<Entry>, thread: Option<nat>, runners: map<nat, Runner>, spawned: nat,
    log: seq<Entry>, taken: seq<Entry>)

  /** What notify_all does to the handler threads that wait. */
  function Awaken(runners: map<nat, Runner>): map<nat, Runner> {
    map t | t in runners :: if runners[t].Waiting? then Waiting(true) else runners[t]
  }

  function Push(q: Queue, e: Entry): Queue {
    var awake := Awaken(q.runners);
    var q1 := q.(entries := q.entries + [e], log := q.log + [e], runners := awake);
    if q.thread.None? then
      q1.(thread := Some(q.spawned), runners := awake[q.spawned := Top], spawned := q.spawned + 1)
    else q1
  }

  function MoveTo(q: Queue, t: nat, r: Runner): Queue {
    q.(runners := q.runners[t := r])
  }

  /** Snapshots the queue, or waits for something to process, or quits. */
  function Take(q: Queue, t: nat): Queue
    requires t in q.runners && q.runners[t].Checked?
  {
    var closed := q.runners[t].closed;
    if !closed && q.entries == [] then MoveTo(q, t, Waiting(false))
    else if closed && q.entries == [] then q.(thread := None, runners := q.runners - {t})
    else MoveTo(q, t, Dispatching(closed, q.entries)).(entries := [])
  }

  /** Hands the next entry of the snapshot to its handler. */
  function Dispatch(q: Queue, t: nat): Queue
    requires t in q.runners && q.runners[t].Dispatching?
  {
    var rest := q.runners[t].rest;
    if rest == [] then MoveTo(q, t, Top)
    else MoveTo(q, t, q.runners[t].(rest := rest[1..])).(taken := q.taken + [rest[0]])
  }

  // ----- the whole channel -----

  datatype State = State(
    closed: bool,
    parser: Parser,
    queue: Queue,
    sent: seq<nat>,
    outgoing: map<nat, Outgoing>,
    waiters: map<nat, Waiter>,
    next: nat,
    drafts: map<nat, Draft>,
    wire: seq<Message>,
    received: seq<Message>,
    incoming: map<nat, Status>)

  const INIT := State(false, Reading, Queue([], None, map[], 0, [], []), [], map[], map[], 1, map[], [], [], map[])

  /** Steps of threads that use the channel, including handlers. */
  datatype ClientAction =
    | BeginRequest(arguments: Payload, handlers: seq<nat>)
    | BeginEvent(body: Payload)
    | BeginResponse(at: nat, body: Payload)
    | Write(num: nat, outcome: Outcome)
    | OnResponse(num: nat, handler: nat)
    | WaitFor(id: nat, num: nat)
    | WaitAgain(id: nat)
    | Close

  datatype ParserAction =
    | Parse(message: Message)
    | FinishResponse
    | Disconnect
    | Crash

  datatype RunnerAction = Check | Snapshot | Wake | HandOut

  datatype Action =
    | Client(client: ClientAction)
    | Parser(parser: ParserAction)
    | Runner(id: nat, runner: RunnerAction)

  predicate Ended(p: Parser) {
    p.Finished? || p.Crashed?
  }

  predicate ClientEnabled(s: State, a: ClientAction) {
    match a
    case BeginRequest(_, _) => true
    case BeginEvent(_) => true
    case BeginResponse(at, _) =>
      at in s.incoming && s.incoming[at].Handling? && at < |s.received| && s.received[at].Request?
    case Write(num, _) => num in s.drafts
    case OnResponse(num, _) => num in s.outgoing
    case WaitFor(id, num) => id !in s.waiters && num in s.outgoing
    case WaitAgain(id) =>
      id in s.waiters && s.waiters[id].notified && s.waiters[id].request in s.outgoing
    case Close => true
  }

  predicate ParserEnabled(s: State, a: ParserAction) {
    match a
    case Parse(_) => s.parser.Reading?
    case FinishResponse =>
      s.parser.PoppedUnknown? || (s.parser.Popped? && s.parser.request in s.outgoing)
    case Disconnect => s.parser.Reading? && forall n <- s.sent :: n in s.outgoing
    case Crash => s.parser.Reading?
  }

  /** A handler thread that saw the channel closed joins the parser thread first. */
  predicate RunnerEnabled(q: Queue, t: nat, a: RunnerAction, parser: Parser) {
    t in q.runners &&
    match a
    case Check => q.runners[t].Top?
    case Snapshot => q.runners[t].Checked? && (q.runners[t].closed ==> Ended(parser))
    case Wake => q.runners[t] == Waiting(true)
    case HandOut => q.runners[t].Dispatching?
  }

  predicate Enabled(s: State, a: Action) {
    match a
    case Client(c) => ClientEnabled(s, c)
    case Parser(p) => ParserEnabled(s, p)
    case Runner(t, r) => RunnerEnabled(s.queue, t, r, s.parser)
  }

  function NotifyAll(waiters: map<nat, Waiter>): map<nat, Waiter> {
    map id | id in waiters :: waiters[id].(notified := true)
  }

  function Enqueue(s: State, e: Entry): State {
    s.(queue := Push(s.queue, e), waiters := NotifyAll(s.waiters))
  }

  /** Sets the response of request `n` and enqueues the handlers waiting for it. */
  function Settle(s: State, n: nat, reply: Reply): State
    requires n in s.outgoing
  {
    var o := s.outgoing[n];
    Enqueue(s.(outgoing := s.outgoing[n := o.(response := Some(reply), writes := o.writes + 1, pending := [])]),
            ResponseEntry(n, reply, o.pending))
  }

  function Pop(s: State, n: nat): State {
    s.(sent := Remove(s.sent, n))
  }

  /** Settles every request of `ns` with the exception that ended the message loop. */
  function SettleAll(s: State, ns: seq<nat>): State
    requires forall n <- ns :: n in s.outgoing
    decreases |ns|
  {
    if ns == [] then s else SettleAll(Settle(Pop(s, ns[0]), ns[0], NoMoreMessages), ns[1..])
  }

  function Begin(s: State, d: Draft): State {
    s.(next := s.next + 1, drafts := s.drafts[s.next := d])
  }

  /** A closed stream refuses the message before any byte is written. */
  function Effective(closed: bool, outcome: Outcome): Outcome {
    if closed then Raised(false) else outcome
  }

  predicate Delivers(o: Outcome) {
    o.Written? || o.delivered
  }

  function Framed(num: nat, d: Draft): Message {
    match d
    case RequestDraft(arguments, _) => Request(num, arguments)
    case EventDraft(body) => Event(num, body)
    case ResponseDraft(_, requestNum, body) => Response(num, requestNum, body)
  }

  function WriteDraft(s: State, num: nat, o: Outcome): State
    requires num in s.drafts
  {
    var d := s.drafts[num];
    var s1 := s.(drafts := s.drafts - {num}, wire := if Delivers(o) then s.wire + [Framed(num, d)] else s.wire);
    match d
    case RequestDraft(_, handlers) =>
      s1.(sent := s.sent + [num],
          outgoing := s.outgoing[num := Outgoing(None, 0, handlers, handlers, o.Written?)])
    case EventDraft(_) => s1
    case ResponseDraft(at, _, body) =>
      s1.(incoming := s.incoming[at := if Delivers(o) then Answered(num, body) else Failed(num, body)])
  }

  function ParseMessage(s: State, m: Message): State {
    var at := |s.received|;
    var s1 := s.(received := s.received + [m]);
    match m
    case Event(_, _) => Enqueue(s1, EventEntry(at))
    case Request(_, _) => Enqueue(s1.(incoming := s.incoming[at := Queued]), RequestEntry(at))
    case Response(_, n, body) =>
      if n in s.sent then Pop(s1, n).(parser := Popped(n, body)) else s1.(parser := PoppedUnknown(n))
  }

  function Register(s: State, n: nat, handler: nat): State
    requires n in s.outgoing
  {
    var o := s.outgoing[n];
    var o1 := o.(registered := o.registered + [handler], pending := o.pending + [handler]);
    if o.response.None? then s.(outgoing := s.outgoing[n := o1])
    else Enqueue(s.(outgoing := s.outgoing[n := o1.(pending := [])]), ResponseEntry(n, o.response.value, o1.pending))
  }

  function LoseConnection(s: State): State
    requires forall n <- s.sent :: n in s.outgoing
  {
    Enqueue(SettleAll(s, s.sent), DisconnectEntry).(closed := true, parser := Finished)
  }

  function ClientStep(s: State, a: ClientAction): State
    requires ClientEnabled(s, a)
  {
    match a
    case BeginRequest(arguments, handlers) => Begin(s, RequestDraft(arguments, handlers))
    case BeginEvent(body) => Begin(s, EventDraft(body))
    case BeginResponse(at, body) =>
      Begin(s, ResponseDraft(at, s.received[at].num, body)).(incoming := s.incoming[at := Responding(s.next, body)])
    case Write(num, outcome) => WriteDraft(s, num, Effective(s.closed, outcome))
    case OnResponse(num, handler) => Register(s, num, handler)
    case WaitFor(id, num) =>
      if s.outgoing[num].response.None? then s.(waiters := s.waiters[id := Waiter(num, false)]) else s
    case WaitAgain(id) =>
      if s.outgoing[s.waiters[id].request].response.None?
      then s.(waiters := s.waiters[id := s.waiters[id].(notified := false)])
      else s.(waiters := s.waiters - {id})
    case Close => s.(closed := true)
  }

  function ParserStep(s: State, a: ParserAction): State
    requires ParserEnabled(s, a)
  {
    match a
    case Parse(m) => ParseMessage(s, m)
    case FinishResponse =>
      if s.parser.Popped? then Settle(s, s.parser.request, Received(s.parser.body)).(parser := Reading)
      else Enqueue(s, UnknownResponseEntry(s.parser.requestNum)).(parser := Reading)
    case Disconnect => LoseConnection(s)
    case Crash => s.(parser := Crashed)
  }

  function QueueStep(q: Queue, t: nat, a: RunnerAction, closed: bool, parser: Parser): Queue
    requires RunnerEnabled(q, t, a, parser)
  {
    match a
    case Check => MoveTo(q, t, Checked(closed))
    case Snapshot => Take(q, t)
    case Wake => MoveTo(q, t, Dispatching(false, q.entries)).(entries := [])
    case HandOut => Dispatch(q, t)
  }

  /** The entry that handler thread `t` hands to its handler in step `a`, if any. */
  function HandedOut(q: Queue, t: nat, a: RunnerAction): seq<Entry> {
    if a.HandOut? && t in q.runners && q.runners[t].Dispatching? && q.runners[t].rest != []
    then [q.runners[t].rest[0]] else []
  }

  function RunnerStep(s: State, t: nat, a: RunnerAction): State
    requires RunnerEnabled(s.queue, t, a, s.parser)
  {
    var e := HandedOut(s.queue, t, a);
    s.(queue := QueueStep(s.queue, t, a, s.closed, s.parser),
       incoming := if e != [] && e[0].RequestEntry? then s.incoming[e[0].at := Handling] else s.incoming)
  }

  function Step(s: State, a: Action): State
    requires Enabled(s, a)
  {
    match a
    case Client(c) => ClientStep(s, c)
    case Parser(p) => ParserStep(s, p)
    case Runner(t, r) => RunnerStep(s, t, r)
  }

  // ----- runs -----

  ghost predicate Next(s: State, s': State) {
    exists a: Action :: Enabled(s, a) && s' == Step(s, a)
  }

  /** A run: the states passed through, starting from a new channel. */
  ghost predicate NextAt(run: seq<State>, i: nat)
    requires 0 < i < |run|
  {
    Next(run[i - 1], run[i])
  }

  ghost predicate IsRun(run: seq<State>) {
    && run != []
    && run[0] == INIT
    && forall i | 0 < i < |run| :: NextAt(run, i)
  }
}
