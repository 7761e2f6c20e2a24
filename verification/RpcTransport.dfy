/** The request/response transport between the desktop shell (`daemon.ts`) and the daemon process
    (`main.rs`): a client with a pending map and a write chain, two pipes, and a server whose stdin
    loop answers light requests and feeds one heavy worker. */
module RpcTransport {
  import opened Sequences
  import opened Wrappers

  type Id = nat

  datatype Request = Request(name: string, params: string, bytes: nat)

  /** A request line: the request under its id. */
  datatype Line = Line(id: Id, request: Request)

  /** A response under the id it quotes; `about` is the request it was computed from. */
  datatype Reply = Reply(id: Id, ok: bool, body: string, about: Request)

  datatype Wire = Response(reply: Reply) | Notice(name: string)

  datatype Reason = DaemonError(reply: Reply) | TimedOut | WriteFailed | DaemonGone

  datatype Outcome = Resolved(reply: Reply) | Rejected(why: Reason)

  // ----- The client -----

  /** `pending` maps an id to whether its timer is armed; `chain` holds the lines `writeChain` has yet
      to write; `issued` and `settled` record each promise's request and its first settlement. */
  datatype Client = Client(nextRequestId: Id, pending: map<Id, bool>, alive: bool, chain: seq<Line>,
                           issued: map<Id, Request>, settled: map<Id, Outcome>)

  function Connected(): Client {
    Client(1, map[], true, [], map[], map[])
  }

  /** Only the first settlement of a promise counts. */
  function Settle(c: Client, id: Id, o: Outcome): Client {
    if id in c.settled then c else c.(settled := c.settled[id := o])
  }

  /** `daemonRpc`: refused without an id once the daemon is gone. */
  function Issue(c: Client, request: Request, timeoutMs: int): Client {
    if !c.alive then c
    else
      var id := c.nextRequestId;
      c.(nextRequestId := id + 1, pending := c.pending[id := timeoutMs > 0], chain := c.chain + [Line(id, request)],
         issued := c.issued[id := request])
  }

  function Dispatch(c: Client, message: Wire): Client {
    match message
    case Notice(_) => c
    case Response(reply) =>
      if reply.id !in c.pending then c
      else
        Settle(c.(pending := c.pending - {reply.id}), reply.id,
               if reply.ok then Resolved(reply) else Rejected(DaemonError(reply)))
  }

  function TimerFires(c: Client, id: Id): Client {
    if id in c.pending && c.pending[id] then Settle(c.(pending := c.pending - {id}), id, Rejected(TimedOut)) else c
  }

  /** The head of the write chain is done with. */
  function WriteOver(c: Client, failed: bool): Client
    requires c.chain != []
  {
    var id := c.chain[0].id;
    var rest := c.(chain := c.chain[1..]);
    if failed then Settle(rest.(pending := c.pending - {id}), id, Rejected(WriteFailed)) else rest
  }

  function RejectAllPending(c: Client): Client {
    c.(pending := map[],
       settled := map id | id in c.settled.Keys + c.pending.Keys ::
                    if id in c.settled then c.settled[id] else Rejected(DaemonGone))
  }

  function MarkDaemonDead(c: Client): Client {
    if c.alive then RejectAllPending(c.(alive := false)) else c
  }

  /** The end of `stopDaemon`, after its shutdown call has settled. */
  function Stopped(c: Client): Client {
    RejectAllPending(c).(alive := false)
  }

  // ----- The server -----

  /** What travels on the channel to the worker. */
  datatype HeavyJob = Job(line: Line) | Shutdown

  /** `queue` is the channel to the worker and `busy` the job it has taken and not yet answered;
      `closed` says that the main thread has sent its sentinel and dropped the sender. `read` and
      `answered` record the lines taken by the stdin loop and the replies written, `heavy` and
      `heavyDone` the requests sent to the worker and its replies, in order. */
  datatype Server = Server(stdin: seq<Line>, reading: bool, queue: seq<HeavyJob>, busy: Option<Line>,
                           closed: bool, working: bool, stdoutFailed: bool, exited: bool, killed: bool,
                           out: seq<Wire>, read: seq<Line>, answered: seq<Reply>,
                           heavy: seq<Line>, heavyDone: seq<Reply>)

  function Spawned(): Server {
    Server([], true, [], None, false, true, false, false, false, [], [], [], [], [])
  }

  predicate IsArgon2Bound(name: string) {
    name == "vault_open" || name == "vault_create"
  }

  predicate IsShutdown(name: string) {
    name == "app_shutdown"
  }

  const MAX_REQUEST_LINE_BYTES := 0x10_0000

  /** What handling a request came to, and whether the write of its response went through. */
  datatype Handling = Handling(ok: bool, body: string, panics: bool, written: bool)

  function ReplyTo(line: Line, h: Handling): Reply {
    if h.panics then Reply(line.id, false, "internal_error", line.request)
    else Reply(line.id, h.ok, h.body, line.request)
  }

  /** `write_out(…)?` in the stdin loop: a failed write ends the process. */
  function WriteOut(s: Server, reply: Reply, written: bool): Server {
    if written then s.(out := s.out + [Response(reply)], answered := s.answered + [reply])
    else s.(stdoutFailed := true, exited := true)
  }

  /** One turn of the stdin loop. */
  function ReadLine(s: Server, h: Handling): Server
    requires s.stdin != []
  {
    var line := s.stdin[0];
    var taken := s.(stdin := s.stdin[1..], read := s.read + [line]);
    if line.request.bytes > MAX_REQUEST_LINE_BYTES then
      WriteOut(taken, Reply(line.id, false, "invalid_request", line.request), h.written)
    else if IsArgon2Bound(line.request.name) then
      if s.working then taken.(queue := s.queue + [Job(line)], heavy := s.heavy + [line])
      else WriteOut(taken, Reply(line.id, false, "internal_error", line.request), h.written).(reading := false)
    else
      var replied := WriteOut(taken, ReplyTo(line, h), h.written);
      if IsShutdown(line.request.name) && !h.panics then replied.(reading := false) else replied
  }

  /** After the stdin loop: the sentinel goes to the worker, if it is still there, and the sender is dropped. */
  function CloseQueue(s: Server): Server {
    s.(closed := true, queue := if s.working then s.queue + [Shutdown] else s.queue)
  }

  /** The worker stops, and what is left on the channel goes with the receiver. */
  function StopWorker(s: Server): Server {
    s.(working := false, busy := None, queue := [])
  }

  /** The worker receives: a request to work on, the sentinel, or the news that the sender is gone. */
  function Receive(s: Server): Server {
    if s.queue == [] || s.queue[0].Shutdown? then StopWorker(s)
    else s.(busy := Some(s.queue[0].line), queue := s.queue[1..])
  }

  /** The worker answers its request; a failed write stops it. */
  function Answer(s: Server, h: Handling): Server
    requires s.busy.Some?
  {
    var reply := ReplyTo(s.busy.value, h);
    if h.written then
      s.(busy := None, out := s.out + [Response(reply)], answered := s.answered + [reply],
         heavyDone := s.heavyDone + [reply])
    else StopWorker(s).(stdoutFailed := true)
  }

  // ----- The system -----

  /** `signalled` says that the shell has sent SIGTERM, for which the daemon has no handler. */
  datatype State = State(client: Client, server: Server, signalled: bool)

  function AtStart(): State {
    State(Connected(), Spawned(), false)
  }

  /** How one write of the chain ends: delivered, refused before it, or reported broken after it. */
  datatype Written = Delivered | Refused | Broken

  datatype Event =
    | Calls(request: Request, timeoutMs: int)
    | Writes(how: Written)
    | ServerReads(h: Handling)
    | InputEnds
    | SendsShutdown
    | WorkerReceives
    | WorkerAnswers(h: Handling)
    | ServerNotifies(name: string)
    | ServerExits
    | ServerKilled
    | ClientReads
    | Fires(id: Id)
    | ClientSeesExit
    | StopEnds
    | SignalLands

  /** The wait of `stopDaemon` for its `app_shutdown` call is over. */
  predicate ShutdownSettled(c: Client) {
    exists id :: id in c.settled && id in c.issued && IsShutdown(c.issued[id].name)
  }

  predicate CanHappen(s: State, e: Event) {
    match e
    case Writes(_) => s.client.chain != []
    case ServerReads(_) => s.server.reading && !s.server.exited && s.server.stdin != []
    case InputEnds => s.server.reading && !s.server.exited
    case SendsShutdown => !s.server.reading && !s.server.closed && !s.server.exited
    case WorkerReceives =>
      s.server.working && !s.server.exited && s.server.busy.None? && (s.server.queue != [] || s.server.closed)
    case WorkerAnswers(_) => s.server.working && !s.server.exited && s.server.busy.Some?
    case ServerNotifies(_) => !s.server.exited
    case ServerExits => s.server.closed && !s.server.working && !s.server.exited
    case ClientReads => s.server.out != []
    case ServerKilled => !s.server.exited
    case ClientSeesExit => s.server.exited
    case StopEnds => ShutdownSettled(s.client)
    case SignalLands => s.signalled && !s.server.exited
    case _ => true
  }

  function Apply(s: State, e: Event): State {
    if !CanHappen(s, e) then s
    else match e
      case Calls(request, timeoutMs) => s.(client := Issue(s.client, request, timeoutMs))
      case Writes(how) =>
        s.(client := WriteOver(s.client, how != Delivered),
           server := if how == Refused then s.server
                     else s.server.(stdin := s.server.stdin + [s.client.chain[0]]))
      case ServerReads(h) => s.(server := ReadLine(s.server, h))
      case InputEnds => s.(server := s.server.(reading := false))
      case SendsShutdown => s.(server := CloseQueue(s.server))
      case WorkerReceives => s.(server := Receive(s.server))
      case WorkerAnswers(h) => s.(server := Answer(s.server, h))
      case ServerNotifies(name) => s.(server := s.server.(out := s.server.out + [Notice(name)]))
      case ServerExits => s.(server := s.server.(exited := true))
      case ServerKilled => s.(server := s.server.(exited := true, killed := true))
      case ClientReads =>
        s.(client := Dispatch(s.client, s.server.out[0]), server := s.server.(out := s.server.out[1..]))
      case Fires(id) => s.(client := TimerFires(s.client, id))
      case ClientSeesExit => s.(client := MarkDaemonDead(s.client))
      case StopEnds => s.(client := Stopped(s.client), signalled := s.signalled || !s.server.exited)
      case SignalLands => s.(server := s.server.(exited := true, killed := true))
  }

  function Run(events: seq<Event>): State {
    if events == [] then AtStart() else Apply(Run(events[..|events| - 1]), events[|events| - 1])
  }

  // ----- The pending map -----

  ghost predicate PendingExact(c: Client) {
    && 1 <= c.nextRequestId && (forall id :: id in c.issued <==> 1 <= id < c.nextRequestId)
    && (forall id :: id in c.settled ==> id in c.issued)
    && (forall id :: id in c.pending <==> id in c.issued && id !in c.settled)
    && (!c.alive ==> forall id :: id !in c.pending)
  }

  ghost predicate LinesIssued(c: Client, lines: seq<Line>) {
    forall k :: 0 <= k < |lines| ==> lines[k].id in c.issued && c.issued[lines[k].id] == lines[k].request
  }

  ghost predicate Grows(a: Client, b: Client) {
    && (forall id :: id in a.issued ==> id in b.issued && b.issued[id] == a.issued[id])
    && (forall id :: id in a.settled ==> id in b.settled && b.settled[id] == a.settled[id])
  }

  lemma WriteOverKeeps(c: Client, failed: bool)
    requires PendingExact(c) && LinesIssued(c, c.chain) && c.chain != []
    ensures PendingExact(WriteOver(c, failed)) && Grows(c, WriteOver(c, failed))
  {
  }

  lemma RejectAllKeeps(c: Client)
    requires PendingExact(c)
    ensures PendingExact(RejectAllPending(c).(alive := false)) && Grows(c, RejectAllPending(c).(alive := false))
    ensures c.alive ==> RejectAllPending(c.(alive := false)) == RejectAllPending(c).(alive := false)
  {
  }

  lemma IssueKeeps(c: Client, request: Request, timeoutMs: int)
    requires PendingExact(c)
    ensures PendingExact(Issue(c, request, timeoutMs)) && Grows(c, Issue(c, request, timeoutMs))
  {
  }

  lemma DispatchKeeps(c: Client, message: Wire)
    requires PendingExact(c)
    ensures PendingExact(Dispatch(c, message)) && Grows(c, Dispatch(c, message))
  {
  }

  lemma TimerKeeps(c: Client, id: Id)
    requires PendingExact(c)
    ensures PendingExact(TimerFires(c, id)) && Grows(c, TimerFires(c, id))
  {
  }

  lemma GrowsSelf(c: Client)
    ensures Grows(c, c)
  {
  }

  /** Each event keeps `pending` exactly the issued ids not yet settled, and never changes how a
      promise was settled. */
  lemma ClientStep(s: State, e: Event)
    requires PendingExact(s.client) && LinesIssued(s.client, s.client.chain)
    ensures PendingExact(Apply(s, e).client) && Grows(s.client, Apply(s, e).client)
  {
    hide PendingExact;
    hide Grows;
    hide LinesIssued;
    hide ReadLine;
    hide CloseQueue;
    hide Receive;
    hide Answer;
    hide RejectAllPending;
    hide WriteOver;
    hide Dispatch;
    hide Issue;
    hide TimerFires;
    GrowsSelf(s.client);
    if CanHappen(s, e) {
      match e
      case Calls(request, timeoutMs) => IssueKeeps(s.client, request, timeoutMs);
      case Writes(how) => WriteOverKeeps(s.client, how != Delivered);
      case ClientReads => DispatchKeeps(s.client, s.server.out[0]);
      case Fires(id) => TimerKeeps(s.client, id);
      case ClientSeesExit => RejectAllKeeps(s.client);
      case StopEnds => RejectAllKeeps(s.client);
      case _ =>
    }
  }

  // ----- Requests and replies keep their identity -----

  ghost predicate WireIssued(c: Client, out: seq<Wire>) {
    forall k :: 0 <= k < |out| && out[k].Response? ==>
      out[k].reply.id in c.issued && c.issued[out[k].reply.id] == out[k].reply.about
  }

  /** A promise settled by a response was settled by one to its own request. */
  ghost predicate SettledByOwn(c: Client) {
    forall id :: id in c.settled ==>
      match c.settled[id]
      case Resolved(reply) => reply.ok && reply.id == id && id in c.issued && c.issued[id] == reply.about
      case Rejected(DaemonError(reply)) => !reply.ok && reply.id == id && id in c.issued && c.issued[id] == reply.about
      case Rejected(_) => true
  }

  /** The requests on the channel, without the sentinel. */
  function Requests(queue: seq<HeavyJob>): seq<Line> {
    if queue == [] then [] else RequestOf(queue[0]) + Requests(queue[1..])
  }

  function RequestOf(job: HeavyJob): seq<Line> {
    if job.Job? then [job.line] else []
  }

  /** What the worker has taken or will find on its channel. */
  function Waiting(s: Server): seq<Line> {
    (if s.busy.Some? then [s.busy.value] else []) + Requests(s.queue)
  }

  ghost predicate ServerIssued(c: Client, s: Server) {
    LinesIssued(c, s.stdin) && LinesIssued(c, Waiting(s)) && WireIssued(c, s.out)
  }

  ghost predicate Identity(s: State) {
    LinesIssued(s.client, s.client.chain) && ServerIssued(s.client, s.server) && SettledByOwn(s.client)
  }

  lemma {:induction false} RequestsAppend(queue: seq<HeavyJob>, job: HeavyJob)
    ensures Requests(queue + [job]) == Requests(queue) + RequestOf(job)
  {
    if queue == [] {
      assert [job][1..] == [];
      assert Requests([job]) == RequestOf(job) + Requests([]);
    } else {
      assert (queue + [job])[1..] == queue[1..] + [job];
      RequestsAppend(queue[1..], job);
      Reassociate(RequestOf(queue[0]), Requests(queue[1..]), RequestOf(job));
      hide RequestOf;
    }
  }

  lemma QueuedWaits(s: Server, line: Line)
    ensures Waiting(s.(queue := s.queue + [Job(line)])) == Waiting(s) + [line]
  {
    RequestsAppend(s.queue, Job(line));
    hide Requests;
  }

  lemma ClosingWaits(s: Server)
    ensures Waiting(CloseQueue(s)) == Waiting(s)
  {
    RequestsAppend(s.queue, Shutdown);
    hide Requests;
  }

  lemma ReceivedWaits(s: Server)
    requires s.busy.None?
    ensures s.queue != [] && s.queue[0].Job? ==> Waiting(Receive(s)) == Waiting(s)
    ensures s.queue == [] || s.queue[0].Shutdown? ==> Waiting(Receive(s)) == []
  {
  }

  lemma AnsweredWaits(s: Server)
    requires s.busy.Some?
    ensures Waiting(s) == [s.busy.value] + Waiting(s.(busy := None))
  {
    hide Requests;
  }

  ghost predicate SameIssued(a: Client, b: Client) {
    forall id :: id in a.issued ==> id in b.issued && b.issued[id] == a.issued[id]
  }

  lemma IdentityGrows(s: State, c: Client)
    requires Identity(s) && SameIssued(s.client, c)
    ensures LinesIssued(c, s.client.chain) && ServerIssued(c, s.server)
  {
  }

  lemma ReadKeepsIdentity(c: Client, s: Server, h: Handling)
    requires s.stdin != [] && ServerIssued(c, s)
    ensures ServerIssued(c, ReadLine(s, h))
  {
    var line := s.stdin[0];
    LinesSplit(c, s.stdin, Waiting(s));
    WritesOwn(c, s.out, ReadReply(s, h));
    QueuedWaits(s, line);
    ReadShape(s, h);
    hide ReadLine;
    hide Requests;
    hide LinesIssued;
    hide WireIssued;
  }

  lemma LinesSplit(c: Client, lines: seq<Line>, waiting: seq<Line>)
    requires lines != [] && LinesIssued(c, lines) && LinesIssued(c, waiting)
    ensures lines[0].id in c.issued && c.issued[lines[0].id] == lines[0].request
    ensures LinesIssued(c, lines[1..]) && LinesIssued(c, waiting + [lines[0]])
  {
  }

  lemma WritesOwn(c: Client, out: seq<Wire>, reply: Reply)
    requires WireIssued(c, out) && reply.id in c.issued && c.issued[reply.id] == reply.about
    ensures WireIssued(c, out + [Response(reply)])
  {
  }

  lemma ReceiveKeepsIdentity(c: Client, s: Server)
    requires s.busy.None? && ServerIssued(c, s)
    ensures ServerIssued(c, Receive(s))
  {
    ReceivedWaits(s);
    hide Requests;
    hide WireIssued;
  }

  lemma AnswerKeepsIdentity(c: Client, s: Server, h: Handling)
    requires s.busy.Some? && ServerIssued(c, s)
    ensures ServerIssued(c, Answer(s, h))
  {
    AnsweredWaits(s);
    assert Waiting(s)[0] == s.busy.value;
    WritesOwn(c, s.out, ReplyTo(s.busy.value, h));
    LinesTail(c, Waiting(s));
    hide LinesIssued;
    hide WireIssued;
  }

  lemma LinesTail(c: Client, lines: seq<Line>)
    requires lines != [] && LinesIssued(c, lines)
    ensures lines[0].id in c.issued && c.issued[lines[0].id] == lines[0].request && LinesIssued(c, lines[1..])
    ensures LinesIssued(c, [])
  {
  }

  lemma DispatchKeepsIdentity(c: Client, message: Wire)
    requires SettledByOwn(c) && PendingExact(c)
    requires message.Response? ==> message.reply.id in c.issued && c.issued[message.reply.id] == message.reply.about
    ensures var next := Dispatch(c, message);
            SettledByOwn(next) && next.chain == c.chain && next.issued == c.issued
  {
  }

  lemma IssueKeepsIdentity(c: Client, request: Request, timeoutMs: int)
    requires SettledByOwn(c) && PendingExact(c) && LinesIssued(c, c.chain)
    ensures var next := Issue(c, request, timeoutMs); SettledByOwn(next) && LinesIssued(next, next.chain)
  {
  }

  lemma TimerKeepsIdentity(c: Client, id: Id)
    requires SettledByOwn(c)
    ensures var next := TimerFires(c, id); SettledByOwn(next) && next.chain == c.chain && next.issued == c.issued
  {
  }

  lemma RejectAllKeepsIdentity(c: Client)
    requires SettledByOwn(c)
    ensures SettledByOwn(RejectAllPending(c).(alive := false))
  {
  }

  lemma WriteOverKeepsIdentity(c: Client, failed: bool)
    requires SettledByOwn(c) && LinesIssued(c, c.chain) && c.chain != []
    ensures var next := WriteOver(c, failed);
            SettledByOwn(next) && LinesIssued(next, next.chain) && next.issued == c.issued
  {
  }

  lemma DeliveryKeepsIdentity(c: Client, s: Server)
    requires LinesIssued(c, c.chain) && c.chain != [] && LinesIssued(c, s.stdin)
    ensures LinesIssued(c, s.stdin + [c.chain[0]])
  {
  }

  lemma SameClientIssued(c: Client, d: Client, s: Server)
    requires d.issued == c.issued && ServerIssued(c, s)
    ensures ServerIssued(d, s)
  {
  }

  lemma ClosingKeepsIdentity(c: Client, s: Server)
    requires ServerIssued(c, s)
    ensures ServerIssued(c, CloseQueue(s))
  {
    ClosingWaits(s);
    hide Waiting;
  }

  lemma IdentityStep(s: State, e: Event)
    requires PendingExact(s.client) && Identity(s)
    ensures Identity(Apply(s, e))
  {
    hide PendingExact;
    hide LinesIssued;
    hide WireIssued;
    hide SettledByOwn;
    hide ReadLine;
    hide CloseQueue;
    hide Receive;
    hide Answer;
    hide RejectAllPending;
    hide WriteOver;
    hide Dispatch;
    hide Issue;
    hide TimerFires;
    if CanHappen(s, e) {
      match e
      case Calls(request, timeoutMs) =>
        IssueKeepsIdentity(s.client, request, timeoutMs);
        IssueGrows(s.client, request, timeoutMs);
        IdentityGrows(s, Issue(s.client, request, timeoutMs));
      case Writes(how) =>
        WriteOverKeepsIdentity(s.client, how != Delivered);
        DeliveryKeepsIdentity(s.client, s.server);
        SameClientIssued(s.client, WriteOver(s.client, how != Delivered), Apply(s, e).server);
      case ServerReads(h) => ReadKeepsIdentity(s.client, s.server, h);
      case SendsShutdown => ClosingKeepsIdentity(s.client, s.server);
      case WorkerReceives => ReceiveKeepsIdentity(s.client, s.server);
      case WorkerAnswers(h) => AnswerKeepsIdentity(s.client, s.server, h);
      case ServerNotifies(name) => NoticeKeepsIdentity(s.client, s.server.out, name);
      case ClientReads =>
        HeadIssued(s.client, s.server.out);
        DispatchKeepsIdentity(s.client, s.server.out[0]);
        IdentityOfSame(s.client, Dispatch(s.client, s.server.out[0]), Apply(s, e).server);
      case Fires(id) =>
        TimerKeepsIdentity(s.client, id);
        IdentityOfSame(s.client, TimerFires(s.client, id), s.server);
      case ClientSeesExit =>
        RejectAllKeepsIdentity(s.client);
        RejectAllFrame(s.client);
        IdentityOfSame(s.client, RejectAllPending(s.client).(alive := false), s.server);
      case StopEnds =>
        RejectAllKeepsIdentity(s.client);
        RejectAllFrame(s.client);
        IdentityOfSame(s.client, RejectAllPending(s.client).(alive := false), s.server);
      case _ =>
    }
  }

  lemma IssueGrows(c: Client, request: Request, timeoutMs: int)
    requires PendingExact(c)
    ensures SameIssued(c, Issue(c, request, timeoutMs))
  {
  }

  lemma NoticeKeepsIdentity(c: Client, out: seq<Wire>, name: string)
    requires WireIssued(c, out)
    ensures WireIssued(c, out + [Notice(name)])
  {
  }

  lemma HeadIssued(c: Client, out: seq<Wire>)
    requires WireIssued(c, out) && out != []
    ensures out[0].Response? ==> out[0].reply.id in c.issued && c.issued[out[0].reply.id] == out[0].reply.about
    ensures WireIssued(c, out[1..])
  {
  }

  lemma RejectAllFrame(c: Client)
    ensures var next := RejectAllPending(c).(alive := false); next.chain == c.chain && next.issued == c.issued
    ensures c.alive ==> RejectAllPending(c.(alive := false)) == RejectAllPending(c).(alive := false)
  {
  }

  lemma IdentityOfSame(c: Client, d: Client, s: Server)
    requires d.issued == c.issued && d.chain == c.chain
    requires LinesIssued(c, c.chain) && ServerIssued(c, s)
    ensures LinesIssued(d, d.chain) && ServerIssued(d, s)
  {
  }

  // ----- Every request is somewhere once -----

  function Ids(lines: seq<Line>): multiset<Id> {
    if lines == [] then multiset{} else multiset{lines[0].id} + Ids(lines[1..])
  }

  function ReplyIds(replies: seq<Reply>): multiset<Id> {
    if replies == [] then multiset{} else multiset{replies[0].id} + ReplyIds(replies[1..])
  }

  lemma {:induction false} IdsAppend(lines: seq<Line>, line: Line)
    ensures Ids(lines + [line]) == Ids(lines) + multiset{line.id}
  {
    if lines == [] {
      assert [line][1..] == [];
    } else {
      assert (lines + [line])[1..] == lines[1..] + [line];
      IdsAppend(lines[1..], line);
    }
  }

  lemma {:induction false} ReplyIdsAppend(replies: seq<Reply>, reply: Reply)
    ensures ReplyIds(replies + [reply]) == ReplyIds(replies) + multiset{reply.id}
  {
    if replies == [] {
      assert [reply][1..] == [];
    } else {
      assert (replies + [reply])[1..] == replies[1..] + [reply];
      ReplyIdsAppend(replies[1..], reply);
    }
  }

  /** Where an id can be: in the write chain, in the stdin pipe, with the worker, or answered. */
  function ServerTokens(s: Server): multiset<Id> {
    Ids(s.stdin) + Ids(Waiting(s)) + ReplyIds(s.answered)
  }

  /** Every id in the system, wherever it is. */
  function Tokens(s: State): multiset<Id> {
    Ids(s.client.chain) + ServerTokens(s.server)
  }

  ghost predicate OnceBelow(ids: multiset<Id>, next: Id) {
    forall id :: id in ids ==> ids[id] == 1 && id < next
  }

  ghost predicate Once(s: State) {
    OnceBelow(Tokens(s), s.client.nextRequestId)
  }

  /** The worker answers its requests in the order the stdin loop sent them. */
  ghost predicate HeavyInOrder(s: Server) {
    && |s.heavyDone| <= |s.heavy| && s.heavy[|s.heavyDone|..] == Waiting(s)
    && forall k :: 0 <= k < |s.heavyDone| ==>
         s.heavyDone[k].id == s.heavy[k].id && s.heavyDone[k].about == s.heavy[k].request
  }

  ghost predicate AllTaken(s: Server) {
    Ids(s.read) == ReplyIds(s.answered) + Ids(Waiting(s))
  }

  ghost predicate RequestsUpTo(queue: seq<HeavyJob>, n: int)
    requires n <= |queue|
  {
    forall k :: 0 <= k < n ==> queue[k].Job?
  }

  /** The sentinel is the last thing on the channel, sent after the last request was read; the worker
      stops on it and on nothing else, so that it leaves nothing behind. */
  ghost predicate SentinelIsLast(s: Server) {
    && (s.closed ==> !s.reading)
    && (!s.closed ==> s.working && RequestsUpTo(s.queue, |s.queue|))
    && (s.closed && s.working ==>
          s.queue != [] && s.queue[|s.queue| - 1].Shutdown? && RequestsUpTo(s.queue, |s.queue| - 1))
    && (!s.working ==> Waiting(s) == [])
    && (s.exited && !s.killed ==> !s.working)
  }

  /** While stdout works, what the stdin loop has taken is answered or with the worker. */
  ghost predicate Accounted(s: Server) {
    !s.stdoutFailed ==> AllTaken(s) && HeavyInOrder(s) && SentinelIsLast(s)
  }

  /** One id moving between three places. */
  lemma Shift(a: multiset<Id>, b: multiset<Id>, c: multiset<Id>, x: Id)
    ensures (multiset{x} + a) + b + c == a + (b + multiset{x}) + c
    ensures (multiset{x} + a) + b + c == a + b + (c + multiset{x})
    ensures a + (multiset{x} + b) + c == a + b + (c + multiset{x})
    ensures a + b + c <= (multiset{x} + a) + b + c && a + b + c <= a + (multiset{x} + b) + c
  {
  }

  lemma Balance(a: multiset<Id>, b: multiset<Id>, c: multiset<Id>, x: Id)
    ensures a == b + c ==> a + multiset{x} == (b + multiset{x}) + c && a + multiset{x} == b + (c + multiset{x})
    ensures a == b + (multiset{x} + c) ==> a == (b + multiset{x}) + c
  {
  }

  function TakenAndAnswered(s: Server, reply: Reply): Server
    requires s.stdin != []
  {
    s.(stdin := s.stdin[1..], read := s.read + [s.stdin[0]], out := s.out + [Response(reply)],
       answered := s.answered + [reply])
  }

  function TakenAndQueued(s: Server): Server
    requires s.stdin != []
  {
    s.(stdin := s.stdin[1..], read := s.read + [s.stdin[0]], queue := s.queue + [Job(s.stdin[0])],
       heavy := s.heavy + [s.stdin[0]])
  }

  function TakenAndLost(s: Server): Server
    requires s.stdin != []
  {
    s.(stdin := s.stdin[1..], read := s.read + [s.stdin[0]], stdoutFailed := true, exited := true)
  }

  lemma WaitingIs(s: Server, t: Server)
    requires s.queue == t.queue && s.busy == t.busy
    ensures Waiting(s) == Waiting(t)
  {
  }

  lemma AnswerBalances(s: Server, reply: Reply)
    requires s.stdin != [] && reply.id == s.stdin[0].id
    ensures var next := TakenAndAnswered(s, reply);
            (AllTaken(s) ==> AllTaken(next)) && ServerTokens(next) == ServerTokens(s)
  {
    IdsAppend(s.read, s.stdin[0]);
    ReplyIdsAppend(s.answered, reply);
    IdsHead(s.stdin);
    WaitingIs(s, TakenAndAnswered(s, reply));
    Shift(Ids(s.stdin[1..]), Ids(Waiting(s)), ReplyIds(s.answered), reply.id);
    Balance(Ids(s.read), ReplyIds(s.answered), Ids(Waiting(s)), reply.id);
    hide Ids;
    hide ReplyIds;
    hide Waiting;
  }

  lemma QueueBalances(s: Server)
    requires s.stdin != []
    ensures var next := TakenAndQueued(s);
            && Waiting(next) == Waiting(s) + [s.stdin[0]] && (AllTaken(s) ==> AllTaken(next))
            && ServerTokens(next) == ServerTokens(s)
  {
    var line := s.stdin[0];
    IdsAppend(s.read, line);
    QueuedWaits(s, line);
    IdsAppend(Waiting(s), line);
    IdsHead(s.stdin);
    Shift(Ids(s.stdin[1..]), Ids(Waiting(s)), ReplyIds(s.answered), line.id);
    Balance(Ids(s.read), ReplyIds(s.answered), Ids(Waiting(s)), line.id);
    hide Ids;
    hide ReplyIds;
    hide Waiting;
  }

  lemma QueueInOrder(s: Server)
    requires HeavyInOrder(s) && s.stdin != []
    ensures HeavyInOrder(TakenAndQueued(s))
  {
    QueuedWaits(s, s.stdin[0]);
    assert (s.heavy + [s.stdin[0]])[|s.heavyDone|..] == s.heavy[|s.heavyDone|..] + [s.stdin[0]];
    hide Requests;
  }

  /** A request is sent only while the sender is there, so it never comes after the sentinel. */
  lemma QueueBeforeSentinel(s: Server)
    requires SentinelIsLast(s) && s.stdin != [] && s.reading && !s.exited
    ensures SentinelIsLast(TakenAndQueued(s))
  {
    hide Waiting;
  }

  lemma AnsweringAccounts(s: Server, reply: Reply)
    requires Accounted(s) && s.stdin != [] && !s.exited && reply.id == s.stdin[0].id
    ensures Accounted(TakenAndAnswered(s, reply)) && ServerTokens(TakenAndAnswered(s, reply)) == ServerTokens(s)
    ensures Accounted(TakenAndAnswered(s, reply).(reading := false))
  {
    AnswerBalances(s, reply);
    ReadingFlag(TakenAndAnswered(s, reply));
    WaitingIs(s, TakenAndAnswered(s, reply));
    hide ServerTokens;
    hide AllTaken;
    hide Waiting;
  }

  lemma QueueingAccounts(s: Server)
    requires Accounted(s) && s.stdin != [] && s.reading && !s.exited
    ensures Accounted(TakenAndQueued(s)) && ServerTokens(TakenAndQueued(s)) == ServerTokens(s)
  {
    QueueBalances(s);
    hide ServerTokens;
    hide AllTaken;
    if !s.stdoutFailed {
      QueueInOrder(s);
      QueueBeforeSentinel(s);
    }
    hide HeavyInOrder;
    hide SentinelIsLast;
  }

  lemma LosingAccounts(s: Server)
    requires s.stdin != []
    ensures Accounted(TakenAndLost(s)) && ServerTokens(TakenAndLost(s)) <= ServerTokens(s)
  {
    IdsHead(s.stdin);
    Shift(Ids(s.stdin[1..]), Ids(Waiting(s)), ReplyIds(s.answered), s.stdin[0].id);
    hide Ids;
    hide ReplyIds;
  }

  lemma ReadingFlag(s: Server)
    ensures ServerTokens(s.(reading := false)) == ServerTokens(s)
    ensures Accounted(s) && !s.exited ==> Accounted(s.(reading := false))
    ensures s.stdoutFailed ==> Accounted(s.(reading := false))
  {
    hide Ids;
    hide ReplyIds;
  }

  /** The reply that a turn of the stdin loop writes, if it writes one. */
  function ReadReply(s: Server, h: Handling): (reply: Reply)
    requires s.stdin != []
    ensures reply.id == s.stdin[0].id
  {
    var line := s.stdin[0];
    if line.request.bytes > MAX_REQUEST_LINE_BYTES then Reply(line.id, false, "invalid_request", line.request)
    else if IsArgon2Bound(line.request.name) then Reply(line.id, false, "internal_error", line.request)
    else ReplyTo(line, h)
  }

  lemma WriteShape(s: Server, h: Handling)
    requires s.stdin != []
    ensures var taken := s.(stdin := s.stdin[1..], read := s.read + [s.stdin[0]]); var reply := ReadReply(s, h);
            WriteOut(taken, reply, h.written) == if h.written then TakenAndAnswered(s, reply) else TakenAndLost(s)
  {
    hide ReadReply;
  }

  /** What a turn of the stdin loop does with its line. */
  lemma ReadShape(s: Server, h: Handling)
    requires s.stdin != []
    ensures var next := ReadLine(s, h);
            var printed := if h.written then TakenAndAnswered(s, ReadReply(s, h)) else TakenAndLost(s);
            next == TakenAndQueued(s) || next == printed || next == printed.(reading := false)
  {
    WriteShape(s, h);
    hide WriteOut;
    hide IsArgon2Bound;
    hide IsShutdown;
    hide ReplyTo;
    hide TakenAndAnswered;
    hide TakenAndLost;
  }

  lemma ReadAccounts(s: Server, h: Handling)
    requires Accounted(s) && s.stdin != [] && s.reading && !s.exited
    ensures Accounted(ReadLine(s, h)) && ServerTokens(ReadLine(s, h)) <= ServerTokens(s)
  {
    ReadShape(s, h);
    LosingAccounts(s);
    ReadingFlag(TakenAndLost(s));
    AnsweringAccounts(s, ReadReply(s, h));
    QueueingAccounts(s);
    hide ReadLine;
    hide ReadReply;
    hide ServerTokens;
    hide Accounted;
  }

  /** The sentinel is sent after the last request. */
  lemma ClosingAccounts(s: Server)
    requires Accounted(s) && !s.reading && !s.closed && !s.exited
    ensures Accounted(CloseQueue(s)) && ServerTokens(CloseQueue(s)) == ServerTokens(s)
  {
    ClosingWaits(s);
    hide Waiting;
    hide Ids;
    hide ReplyIds;
  }

  lemma ReceiveAccounts(s: Server)
    requires Accounted(s) && s.working && !s.exited && s.busy.None? && (s.queue != [] || s.closed)
    ensures Accounted(Receive(s)) && ServerTokens(Receive(s)) <= ServerTokens(s)
  {
    ReceivedWaits(s);
    if s.queue == [] || s.queue[0].Shutdown? {
      SentinelIsAlone(s);
      if !s.stdoutFailed {
        SameWaiting(s, Receive(s));
      }
    } else {
      SameWaiting(s, Receive(s));
      RequestTaken(s);
    }
    hide AllTaken;
    hide HeavyInOrder;
    hide Waiting;
    hide Ids;
    hide ReplyIds;
  }

  /** What the invariant says of the requests depends on what waits, wherever it waits. */
  lemma SameWaiting(s: Server, t: Server)
    requires Waiting(s) == Waiting(t) && s.read == t.read && s.answered == t.answered
    requires s.heavy == t.heavy && s.heavyDone == t.heavyDone
    ensures AllTaken(s) == AllTaken(t) && HeavyInOrder(s) == HeavyInOrder(t)
  {
  }

  lemma RequestTaken(s: Server)
    requires s.working && s.queue != [] && s.queue[0].Job?
    ensures SentinelIsLast(s) ==> SentinelIsLast(Receive(s))
  {
    hide Waiting;
  }

  /** When the worker meets the sentinel nothing waits behind it. */
  lemma SentinelIsAlone(s: Server)
    requires s.working && s.busy.None? && (s.queue == [] || s.queue[0].Shutdown?)
    ensures SentinelIsLast(s) && (s.queue != [] || s.closed) ==> s.closed && Waiting(s) == []
  {
    if SentinelIsLast(s) && s.queue != [] {
      assert s.queue[1..] == [];
      assert Requests(s.queue) == [];
    }
  }

  lemma AnsweredBalances(s: Server, h: Handling)
    requires s.busy.Some? && h.written
    ensures var next := Answer(s, h); (AllTaken(s) ==> AllTaken(next)) && ServerTokens(next) == ServerTokens(s)
  {
    var reply := ReplyTo(s.busy.value, h);
    var rest := Waiting(s.(busy := None));
    AnsweredWaits(s);
    IdsHead(Waiting(s));
    assert Waiting(s)[1..] == rest;
    ReplyIdsAppend(s.answered, reply);
    Shift(Ids(s.stdin), Ids(rest), ReplyIds(s.answered), reply.id);
    Balance(Ids(s.read), ReplyIds(s.answered), Ids(rest), reply.id);
    WaitingIs(s.(busy := None), Answer(s, h));
    hide Ids;
    hide ReplyIds;
    hide Waiting;
  }

  lemma AnswerAccounts(s: Server, h: Handling)
    requires Accounted(s) && s.working && !s.exited && s.busy.Some?
    ensures Accounted(Answer(s, h)) && ServerTokens(Answer(s, h)) <= ServerTokens(s)
  {
    if h.written {
      AnsweredBalances(s, h);
      hide AllTaken;
      hide ServerTokens;
      if HeavyInOrder(s) {
        AnswerInOrder(s, h);
      }
      hide HeavyInOrder;
    } else {
      hide Ids;
      hide ReplyIds;
    }
  }

  lemma AnswerInOrder(s: Server, h: Handling)
    requires HeavyInOrder(s) && s.busy.Some? && h.written
    ensures HeavyInOrder(Answer(s, h))
  {
    AnsweredWaits(s);
    WaitingIs(s.(busy := None), Answer(s, h));
    var n := |s.heavyDone|;
    assert s.heavy[n] == s.heavy[n..][0];
    assert s.heavy[n + 1..] == s.heavy[n..][1..];
    hide Waiting;
  }

  /** No event of the server, and no event of the client but a call, brings an id into the system. */
  lemma ServerStep(s: State, e: Event)
    requires Accounted(s.server) && !e.Writes?
    ensures Accounted(Apply(s, e).server) && ServerTokens(Apply(s, e).server) <= ServerTokens(s.server)
  {
    hide Dispatch;
    hide TimerFires;
    hide ReadLine;
    hide CloseQueue;
    hide Receive;
    hide Answer;
    hide Accounted;
    hide ServerTokens;
    if CanHappen(s, e) {
      match e
      case ServerReads(h) => ReadAccounts(s.server, h);
      case SendsShutdown => ClosingAccounts(s.server);
      case WorkerReceives => ReceiveAccounts(s.server);
      case WorkerAnswers(h) => AnswerAccounts(s.server, h);
      case ClientReads => OutputAccounts(s.server, s.server.out[1..]);
      case ServerNotifies(name) => OutputAccounts(s.server, s.server.out + [Notice(name)]);
      case InputEnds => EndingAccounts(s.server);
      case ServerExits => EndingAccounts(s.server);
      case ServerKilled => EndingAccounts(s.server);
      case SignalLands => EndingAccounts(s.server);
      case _ =>
    }
  }

  lemma Moved(a: multiset<Id>, b: multiset<Id>, x: Id)
    ensures a + (b + multiset{x}) <= (multiset{x} + a) + b && a + b <= (multiset{x} + a) + b
  {
  }

  /** A line leaves the write chain for the stdin pipe, or for nowhere. */
  lemma WriteStep(s: State, how: Written)
    requires Accounted(s.server) && s.client.chain != []
    ensures var next := Apply(s, Writes(how));
            && Accounted(next.server) && Tokens(next) <= Tokens(s)
            && next.client.nextRequestId == s.client.nextRequestId
  {
    var line := s.client.chain[0];
    var delivered := s.server.(stdin := s.server.stdin + [line]);
    var next := Apply(s, Writes(how));
    IdsHead(s.client.chain);
    WriteOverFrame(s.client, how != Delivered);
    DeliveryAccounts(s.server, line);
    Moved(Ids(s.client.chain[1..]), ServerTokens(s.server), line.id);
    assert next.client.chain == s.client.chain[1..];
    assert next.server == if how == Refused then s.server else delivered;
    hide Apply;
    hide WriteOver;
    hide Accounted;
    hide ServerTokens;
    hide Ids;
  }

  lemma WriteOverFrame(c: Client, failed: bool)
    requires c.chain != []
    ensures WriteOver(c, failed).chain == c.chain[1..] && WriteOver(c, failed).nextRequestId == c.nextRequestId
  {
  }

  lemma ClientFrame(s: State, e: Event)
    requires !e.Writes? && !e.Calls?
    ensures Apply(s, e).client.chain == s.client.chain
    ensures Apply(s, e).client.nextRequestId == s.client.nextRequestId
  {
  }

  /** The ids that an event adds to those in the system: at most the next one, once. */
  lemma TokenStep(s: State, e: Event)
    requires Accounted(s.server)
    ensures Accounted(Apply(s, e).server)
    ensures var before, after, newest := Tokens(s), Tokens(Apply(s, e)), s.client.nextRequestId;
            || (after <= before && Apply(s, e).client.nextRequestId == newest)
            || (after == before + multiset{newest} && Apply(s, e).client.nextRequestId == newest + 1)
  {
    hide Accounted;
    hide ServerTokens;
    hide Ids;
    if e.Writes? && CanHappen(s, e) {
      WriteStep(s, e.how);
      hide Apply;
    } else if e.Calls? {
      ServerStep(s, e);
      IdsAppend(s.client.chain, Line(s.client.nextRequestId, e.request));
    } else if !e.Writes? {
      ServerStep(s, e);
      ClientFrame(s, e);
      hide Apply;
    }
  }

  lemma IdsHead(lines: seq<Line>)
    requires lines != []
    ensures Ids(lines) == multiset{lines[0].id} + Ids(lines[1..])
  {
  }

  lemma DeliveryAccounts(s: Server, line: Line)
    requires Accounted(s)
    ensures Accounted(s.(stdin := s.stdin + [line]))
    ensures ServerTokens(s.(stdin := s.stdin + [line])) == ServerTokens(s) + multiset{line.id}
  {
    WaitingIs(s, s.(stdin := s.stdin + [line]));
    IdsAppend(s.stdin, line);
    Shift(Ids(s.stdin), Ids(Waiting(s)), ReplyIds(s.answered), line.id);
    hide Waiting;
    hide Ids;
    hide ReplyIds;
  }

  lemma OutputAccounts(s: Server, out: seq<Wire>)
    requires Accounted(s)
    ensures Accounted(s.(out := out)) && ServerTokens(s.(out := out)) == ServerTokens(s)
  {
    WaitingIs(s, s.(out := out));
    hide Waiting;
  }

  lemma EndingAccounts(s: Server)
    requires Accounted(s)
    ensures !s.exited ==> Accounted(s.(reading := false))
    ensures s.closed && !s.working ==> Accounted(s.(exited := true))
    ensures Accounted(s.(exited := true, killed := true))
    ensures ServerTokens(s.(reading := false)) == ServerTokens(s)
    ensures ServerTokens(s.(exited := true)) == ServerTokens(s)
    ensures ServerTokens(s.(exited := true, killed := true)) == ServerTokens(s)
  {
    hide Waiting;
    WaitingIs(s, s.(reading := false));
    WaitingIs(s, s.(exited := true));
    WaitingIs(s, s.(exited := true, killed := true));
  }

  lemma StillOnce(before: multiset<Id>, after: multiset<Id>, newest: Id, next: Id)
    requires OnceBelow(before, newest)
    requires || (after <= before && next == newest)
             || (after == before + multiset{newest} && next == newest + 1)
    ensures OnceBelow(after, next)
  {
    forall id | id in after ensures after[id] == 1 && id < next {
      if after <= before {
        assert after[id] <= before[id];
      } else if id == newest {
        assert id !in before;
      }
    }
  }

  lemma OnceStep(s: State, e: Event)
    requires Once(s) && Accounted(s.server)
    ensures Once(Apply(s, e)) && Accounted(Apply(s, e).server)
  {
    TokenStep(s, e);
    hide Apply;
    hide Accounted;
    hide Tokens;
    StillOnce(Tokens(s), Tokens(Apply(s, e)), s.client.nextRequestId, Apply(s, e).client.nextRequestId);
  }

  // ----- Whole runs -----

  ghost predicate Kept(s: State) {
    PendingExact(s.client) && Identity(s) && Once(s) && Accounted(s.server)
  }

  lemma StartIsKept()
    ensures Kept(AtStart())
  {
  }

  lemma {:induction false} RunKeeps(events: seq<Event>)
    ensures Kept(Run(events))
  {
    if events == [] {
      StartIsKept();
    } else {
      var front, e := events[..|events| - 1], events[|events| - 1];
      RunKeeps(front);
      ClientStep(Run(front), e);
      IdentityStep(Run(front), e);
      OnceStep(Run(front), e);
      hide Apply;
      hide PendingExact;
      hide LinesIssued;
      hide WireIssued;
      hide SettledByOwn;
      hide Once;
      hide Accounted;
      hide Grows;
    }
  }

  /** In every interleaving `pending` is exactly the issued ids not yet settled, and nothing is
      pending once the daemon is known to be gone. */
  lemma PendingIsExact(events: seq<Event>)
    ensures var c := Run(events).client;
            && (forall id :: id in c.pending <==> 1 <= id < c.nextRequestId && id !in c.settled)
            && (!c.alive ==> forall id :: 1 <= id < c.nextRequestId ==> id in c.settled)
  {
    RunKeeps(events);
  }

  /** A promise is settled at most once: however the run goes on, its outcome stays. */
  lemma {:induction false} SettledForGood(events: seq<Event>, k: nat, id: Id)
    requires k <= |events| && id in Run(events[..k]).client.settled
    ensures id in Run(events).client.settled && Run(events).client.settled[id] == Run(events[..k]).client.settled[id]
    decreases |events|
  {
    if k == |events| {
      assert events[..k] == events;
    } else {
      var front, e := events[..|events| - 1], events[|events| - 1];
      assert front[..k] == events[..k];
      SettledForGood(front, k, id);
      RunKeeps(front);
      ClientStep(Run(front), e);
      hide Apply;
    }
  }

  /** A resolved promise carries the result of its own request, and so does an error of the daemon. */
  lemma ResultsAreOwn(events: seq<Event>, id: Id)
    requires id in Run(events).client.settled
    ensures var c := Run(events).client;
            match c.settled[id]
            case Resolved(reply) => reply.ok && reply.id == id && id in c.issued && reply.about == c.issued[id]
            case Rejected(DaemonError(reply)) =>
              !reply.ok && reply.id == id && id in c.issued && reply.about == c.issued[id]
            case Rejected(_) => true
  {
    RunKeeps(events);
  }

  lemma {:induction false} RepeatedId(replies: seq<Reply>, i: nat, j: nat)
    requires i < j < |replies| && replies[i].id == replies[j].id
    ensures ReplyIds(replies)[replies[i].id] >= 2
  {
    if i == 0 {
      IdCounted(replies[1..], j - 1);
    } else {
      RepeatedId(replies[1..], i - 1, j - 1);
    }
  }

  lemma {:induction false} IdCounted(replies: seq<Reply>, i: nat)
    requires i < |replies|
    ensures ReplyIds(replies)[replies[i].id] >= 1
  {
    if i > 0 {
      IdCounted(replies[1..], i - 1);
    }
  }

  lemma AnswersOnce(s: State, id: Id)
    requires Once(s)
    ensures ReplyIds(s.server.answered)[id] <= 1
  {
    var tokens := Tokens(s);
    assert ReplyIds(s.server.answered)[id] <= tokens[id];
    assert id in tokens ==> tokens[id] == 1;
    hide Ids;
    hide ReplyIds;
  }

  /** The daemon answers each request at most once. */
  lemma AnsweredOnce(events: seq<Event>, i: nat, j: nat)
    requires i < j < |Run(events).server.answered|
    ensures Run(events).server.answered[i].id != Run(events).server.answered[j].id
  {
    RunKeeps(events);
    var replies := Run(events).server.answered;
    AnswersOnce(Run(events), replies[i].id);
    hide Run;
    hide Once;
    if replies[i].id == replies[j].id {
      RepeatedId(replies, i, j);
      assert false;
    }
  }

  /** Every line taken has its answer, and the worker's answers are to its requests, one by one. */
  ghost predicate AllAnswered(s: Server) {
    && Ids(s.read) == ReplyIds(s.answered) && |s.heavyDone| == |s.heavy|
    && forall k :: 0 <= k < |s.heavy| ==>
         s.heavyDone[k].id == s.heavy[k].id && s.heavyDone[k].about == s.heavy[k].request
  }

  lemma AnsweredExactly(s: Server)
    requires Accounted(s) && !s.stdoutFailed
    ensures AllAnswered(s) <==> Waiting(s) == []
    ensures |s.heavyDone| <= |s.heavy| && s.heavy[|s.heavyDone|..] == Waiting(s)
  {
    assert Ids([]) == multiset{};
    hide Waiting;
  }

  /** Unless stdout failed, when the process has exited the heavy requests left unanswered are those
      that were still with the worker, and every line taken has its answer exactly when there are none;
      so it is whenever the process ended by itself. */
  lemma DrainedBeforeExit(events: seq<Event>)
    requires var s := Run(events).server; s.exited && !s.stdoutFailed
    ensures var s := Run(events).server;
            && (AllAnswered(s) <==> Waiting(s) == [])
            && |s.heavyDone| <= |s.heavy| && s.heavy[|s.heavyDone|..] == Waiting(s)
            && (!s.killed ==> AllAnswered(s))
  {
    RunKeeps(events);
    AnsweredExactly(Run(events).server);
    hide Waiting;
    hide Run;
  }

  /** The signal of `stopDaemon`, or any other that ends the process, leaves every line taken answered
      exactly when it lands with nothing queued for the worker or in its hands. */
  lemma KillSparesExactly(events: seq<Event>, e: Event)
    requires (e.SignalLands? || e.ServerKilled?) && CanHappen(Run(events), e)
    requires !Run(events).server.stdoutFailed
    ensures var s := Run(events + [e]).server;
            s.exited && (AllAnswered(s) <==> Waiting(Run(events).server) == [])
  {
    hide Run;
    hide Accounted;
    RunKeeps(events);
    RunOneMore(events, e);
    var s := Run(events).server;
    AnsweredExactly(s);
    KilledIs(s, Run(events + [e]).server);
    assert Run(events + [e]).server == s.(exited := true, killed := true);
    hide Waiting;
    hide AllAnswered;
  }

  lemma KilledIs(s: Server, t: Server)
    requires t.read == s.read && t.answered == s.answered && t.heavy == s.heavy && t.heavyDone == s.heavyDone
    ensures AllAnswered(t) <==> AllAnswered(s)
  {
  }

  lemma RunOneMore(events: seq<Event>, e: Event)
    ensures Run(events + [e]) == Apply(Run(events), e)
  {
    assert (events + [e])[..|events|] == events;
  }

  /** Nothing is read, sent to the worker or answered after the exit. */
  lemma ExitIsFinal(s: State, e: Event)
    requires s.server.exited
    ensures var before, after := s.server, Apply(s, e).server;
            && after.exited && after.killed == before.killed && after.stdoutFailed == before.stdoutFailed
            && after.read == before.read && after.answered == before.answered
            && after.heavy == before.heavy && after.heavyDone == before.heavyDone
  {
    hide Issue;
    hide WriteOver;
    hide Dispatch;
    hide TimerFires;
    hide MarkDaemonDead;
    hide Stopped;
    hide ReadLine;
    hide Answer;
    hide Receive;
    hide CloseQueue;
    hide ShutdownSettled;
    if CanHappen(s, e) {
      match e
      case Writes(_) =>
      case ClientReads =>
      case _ =>
    }
  }

  /** An ordinary stop: `vault_open` is sent to the worker, `app_shutdown` is answered, and the shell
      sends its signal on that answer. The process ends with the open unanswered. */
  lemma ShutdownCutsTheDrain(open: Request, stop: Request, timeoutMs: int, h: Handling)
    requires IsArgon2Bound(open.name) && IsShutdown(stop.name)
    requires open.bytes <= MAX_REQUEST_LINE_BYTES && stop.bytes <= MAX_REQUEST_LINE_BYTES
    requires h.ok && h.written && !h.panics
    ensures var s := Run([Calls(open, timeoutMs), Calls(stop, timeoutMs), Writes(Delivered), Writes(Delivered),
                          ServerReads(h), ServerReads(h), ClientReads, StopEnds, SignalLands]).server;
            && s.exited && s.killed && !s.stdoutFailed
            && s.heavy == [Line(1, open)] && s.heavyDone == [] && !AllAnswered(s)
  {
    var e1, e2, e3, e4 := Calls(open, timeoutMs), Calls(stop, timeoutMs), Writes(Delivered), Writes(Delivered);
    var e5, e6, e7, e8, e9 := ServerReads(h), ServerReads(h), ClientReads, StopEnds, SignalLands;
    var sent := Sent(open, stop, timeoutMs);
    RunsToSent(open, stop, timeoutMs);
    var four := [e1, e2, e3, e4];
    RunOneMore(four, e5);
    RunOneMore(four + [e5], e6);
    RunOneMore(four + [e5, e6], e7);
    RunOneMore(four + [e5, e6, e7], e8);
    RunOneMore(four + [e5, e6, e7, e8], e9);
    assert four + [e5] + [e6] == four + [e5, e6];
    assert four + [e5, e6] + [e7] == four + [e5, e6, e7];
    assert four + [e5, e6, e7] + [e8] == four + [e5, e6, e7, e8];
    assert four + [e5, e6, e7, e8] + [e9] == [e1, e2, e3, e4, e5, e6, e7, e8, e9];
    hide Run;
    var answered := AnsweredShutdown(sent, open, stop, h);
    hide Apply;
    StopAfterReply(answered, stop);
  }

  /** The reply settles the shutdown call, and the signal ends a server that is otherwise as it was. */
  lemma StopAfterReply(s: State, stop: Request)
    requires IsShutdown(stop.name) && !s.server.exited
    requires s.server.out != [] && s.server.out[0].Response? && s.server.out[0].reply.ok
    requires var id := s.server.out[0].reply.id;
             id in s.client.pending && id in s.client.issued && s.client.issued[id] == stop
    ensures var next := Apply(Apply(Apply(s, ClientReads), StopEnds), SignalLands).server;
            next == s.server.(out := s.server.out[1..], exited := true, killed := true)
  {
    hide Dispatch;
    hide Stopped;
    hide ShutdownSettled;
    ReplySettlesStop(s.client, s.server.out[0].reply, stop);
    SettledMayStop(Apply(s, ClientReads));
  }

  lemma ReplySettlesStop(c: Client, reply: Reply, stop: Request)
    requires IsShutdown(stop.name) && reply.ok
    requires reply.id in c.pending && reply.id in c.issued && c.issued[reply.id] == stop
    ensures ShutdownSettled(Dispatch(c, Response(reply)))
  {
    hide IsShutdown;
    assert reply.id in Dispatch(c, Response(reply)).settled;
  }

  /** Once `app_shutdown` is settled the client may stop, and the signal ends a server still at work. */
  lemma SettledMayStop(s: State)
    requires ShutdownSettled(s.client) && !s.server.exited
    ensures Apply(Apply(s, StopEnds), SignalLands).server == s.server.(exited := true, killed := true)
  {
    hide Stopped;
    hide ShutdownSettled;
  }

  /** Both lines are in the daemon's stdin. */
  function Sent(open: Request, stop: Request, timeoutMs: int): State {
    var armed := timeoutMs > 0;
    State(Client(3, map[1 := armed, 2 := armed], true, [], map[1 := open, 2 := stop], map[]),
          Spawned().(stdin := [Line(1, open), Line(2, stop)]), false)
  }

  lemma RunsToSent(open: Request, stop: Request, timeoutMs: int)
    ensures Run([Calls(open, timeoutMs), Calls(stop, timeoutMs), Writes(Delivered), Writes(Delivered)])
         == Sent(open, stop, timeoutMs)
  {
    var e1, e2, w := Calls(open, timeoutMs), Calls(stop, timeoutMs), Writes(Delivered);
    RunOneMore([], e1);
    RunOneMore([e1], e2);
    RunOneMore([e1, e2], w);
    RunOneMore([e1, e2, w], w);
    assert [] + [e1] == [e1] && [e1] + [e2] == [e1, e2] && [e1, e2] + [w] == [e1, e2, w];
    assert [e1, e2, w] + [w] == [e1, e2, w, w];
    assert Run([]) == AtStart();
    hide Run;
    var a, b := Line(1, open), Line(2, stop);
    assert Run([e1, e2]).client.chain == [a, b] && [a, b][1..] == [b] && [b][1..] == [];
  }

  lemma AnsweredShutdown(sent: State, open: Request, stop: Request, h: Handling) returns (next: State)
    requires sent.server == Spawned().(stdin := [Line(1, open), Line(2, stop)])
    requires IsArgon2Bound(open.name) && IsShutdown(stop.name)
    requires open.bytes <= MAX_REQUEST_LINE_BYTES && stop.bytes <= MAX_REQUEST_LINE_BYTES
    requires h.ok && h.written && !h.panics
    ensures next == Apply(Apply(sent, ServerReads(h)), ServerReads(h))
    ensures next.client == sent.client && next.signalled == sent.signalled
    ensures var reply := Reply(2, true, h.body, stop); var a := Line(1, open);
            && next.server == Spawned().(reading := false, queue := [Job(a)], heavy := [a],
                                         read := [a, Line(2, stop)], out := [Response(reply)], answered := [reply])
  {
    var a, b := Line(1, open), Line(2, stop);
    assert [a, b][1..] == [b] && [b][1..] == [];
    next := Apply(Apply(sent, ServerReads(h)), ServerReads(h));
  }

  /** The steps by which the process ends once it reads no more. */
  predicate Drains(e: Event) {
    e.SendsShutdown? || e.WorkerReceives? || e.WorkerAnswers? || e.ServerExits?
  }

  function DrainLeft(s: Server): nat {
    if s.exited then 0
    else 1 + (if s.closed then 0 else 3)
           + if s.working then 1 + 2 * |s.queue| + (if s.busy.Some? then 1 else 0) else 0
  }

  /** The join cannot wait for ever: until the process has exited one of these steps is possible, each
      of them brings the exit nearer, and nothing else puts it off. */
  lemma DrainGoesOn(s: State, e: Event, h: Handling)
    requires !s.server.reading && !s.server.exited
    ensures || CanHappen(s, SendsShutdown) || CanHappen(s, WorkerReceives)
            || CanHappen(s, WorkerAnswers(h)) || CanHappen(s, ServerExits)
    ensures !Apply(s, e).server.reading && DrainLeft(Apply(s, e).server) <= DrainLeft(s.server)
    ensures CanHappen(s, e) && Drains(e) ==> DrainLeft(Apply(s, e).server) < DrainLeft(s.server)
  {
  }
}
