/** The whole system: the manager's thread, its workers and the clients.
    The manager lists one source after the other. It keeps the connection for the listing until
    it has offered the last job (`src/nfs_manager_logic.c:123`, `src/nfs_manager_logic.c:180`),
    and waits while the job queue is full. A worker connects to the source client of its job and
    then to the target client (`src/thread_pool.c:227`, `src/thread_pool.c:242`). A client serves
    one connection at a time, in the order of arrival, until its peer closes it
    (`src/nfs_client.c:25-43`, `src/nfs_client_logic.c:149-153`). A transfer needs the source
    client to serve it; what it sends to the target waits in the stream until that client comes
    to it. One step here is a whole transfer, whose inside is the business of `Relay`. */
module Fleet {
  import opened Options
  import opened FileServer
  import opened ServerRuns
  import opened Wire

  /** A connection to a client; `ticket` numbers connections in the order in which they are made. */
  datatype Link =
    | OfTask(task: nat, toSource: bool, ticket: nat)
    | OfManager(ticket: nat)

  datatype Phase =
    | Unlisted                       // no job yet
    | Waiting                        // the job is queued
    | Taken                          // a worker has it
    | OnSource(s: nat)               // connected to the source client
    | OnBoth(s: nat, t: nat)         // connected to both
    | Closed(s: nat, t: nat, sent: Option<Series>) // both connections closed

  /** One file to copy; `source` and `target` are clients. */
  datatype Task = Task(source: nat, target: nat, sourcePath: string, targetPath: string, phase: Phase)

  /** A client: the connections it has to serve, the first of which it is serving, its files,
      and the tasks it has served as a target, in order. */
  datatype Party = Party(queue: seq<Link>, server: Server, served: seq<nat>)

  /** A source to list, and how many files it has; `None` for a directory that cannot be opened. */
  datatype Listing = Listing(client: nat, files: Option<nat>)

  datatype ManagerPhase =
    | Idle
    | Asking(k: nat)               // LIST is sent, waiting in recv
    | Offering(k: nat, left: nat)  // in the enqueue loop, the connection still open

  /** Tasks are numbered in the order of the listings; the first `born` have become jobs. */
  datatype System = System(
    clients: seq<Party>, tasks: seq<Task>, clock: nat,
    limit: nat, capacity: nat, jobs: seq<nat>,
    plan: seq<Listing>, turn: nat, manager: ManagerPhase, born: nat)

  datatype Action =
    | Ask | Reply | Offer | Release
    | Take
    | ConnectSource(t: nat)
    | ConnectTarget(t: nat)
    | Transfer(t: nat, chunks: seq<string>)
    | Refuse(t: nat)
    | Hangup(c: nat) // a client is done with a connection its peer has closed

  predicate Working(phase: Phase) { phase.Taken? || phase.OnSource? || phase.OnBoth? }

  /** The tasks a worker is busy with. */
  function Busy(tasks: seq<Task>): set<nat> {
    set t | 0 <= t < |tasks| && Working(tasks[t].phase)
  }

  /** The ticket and the client of the manager's open connection. */
  function Holding(s: System): Option<(nat, nat)> {
    if s.manager.Idle? || s.turn >= |s.plan| then None else Some((s.manager.k, s.plan[s.turn].client))
  }

  predicate HeadIs(s: System, c: nat, link: Link) {
    c < |s.clients| && s.clients[c].queue != [] && s.clients[c].queue[0] == link
  }

  /** The source client is serving the connection of this task. */
  predicate Served(s: System, t: nat) {
    && t < |s.tasks| && s.tasks[t].phase.OnBoth?
    && HeadIs(s, s.tasks[t].source, OfTask(t, true, s.tasks[t].phase.s))
  }

  /** The peer of the connection has closed it. */
  predicate IsClosed(s: System, link: Link) {
    match link
    case OfTask(t, _, _) => t < |s.tasks| && s.tasks[t].phase.Closed?
    case OfManager(k) => Holding(s).None? || Holding(s).value.0 != k
  }

  /** The file a task is to copy, as its source client has it now. */
  function SourceFile(s: System, t: nat): Option<string>
    requires t < |s.tasks| && s.tasks[t].source < |s.clients|
  {
    var disk, file := s.clients[s.tasks[t].source].server.disk, Relative(s.tasks[t].sourcePath);
    if file in disk then Some(disk[file]) else None
  }

  predicate Enabled(s: System, a: Action) {
    match a
    case Ask => s.manager == Idle && s.turn < |s.plan|
    case Reply =>
      && s.manager.Asking? && s.turn < |s.plan| && s.plan[s.turn].files.Some?
      && HeadIs(s, s.plan[s.turn].client, OfManager(s.manager.k))
    case Offer =>
      s.manager.Offering? && s.manager.left > 0 && |s.jobs| < s.capacity && s.born < |s.tasks|
    case Release => s.manager.Offering? && s.manager.left == 0
    case Take => s.jobs != [] && s.jobs[0] < |s.tasks| && |Busy(s.tasks)| < s.limit
    case ConnectSource(t) => t < |s.tasks| && s.tasks[t].phase.Taken?
    case ConnectTarget(t) => t < |s.tasks| && s.tasks[t].phase.OnSource?
    case Transfer(t, chunks) =>
      && Served(s, t) && (forall i :: 0 <= i < |chunks| ==> chunks[i] != "")
      && SourceFile(s, t).Some? && Concat(chunks) <= SourceFile(s, t).value
    case Refuse(t) => Served(s, t)
    case Hangup(c) => c < |s.clients| && s.clients[c].queue != [] && IsClosed(s, s.clients[c].queue[0])
  }

  /** A transfer that breaks off early, or is refused although the file is there. */
  predicate Failing(s: System, a: Action)
    requires Enabled(s, a)
  {
    match a
    case Transfer(t, chunks) => Concat(chunks) != SourceFile(s, t).value
    case Refuse(t) => SourceFile(s, t).Some?
    case _ => false
  }

  function Arrive(clients: seq<Party>, c: nat, link: Link): seq<Party> {
    if c < |clients| then clients[c := clients[c].(queue := clients[c].queue + [link])] else clients
  }

  function WithPhase(tasks: seq<Task>, t: nat, phase: Phase): seq<Task>
    requires t < |tasks|
  {
    tasks[t := tasks[t].(phase := phase)]
  }

  /** What a client does with a connection that its peer has closed: as a target it takes in
      what was sent; then it hangs up. */
  function Finish(s: System, client: Party): Party
    requires client.queue != [] && IsClosed(s, client.queue[0])
  {
    match client.queue[0]
    case OfTask(t, toSource, _) =>
      if toSource then client.(queue := client.queue[1..])
      else Party(client.queue[1..], Absorb(client.server, s.tasks[t].phase.sent), client.served + [t])
    case OfManager(_) => client.(queue := client.queue[1..])
  }

  function Absorb(server: Server, sent: Option<Series>): Server {
    if sent.Some? then Serve(server, Sends(sent.value)) else server
  }

  function Next(s: System, a: Action): System
    requires Enabled(s, a)
  {
    match a
    case Ask =>
      s.(clients := Arrive(s.clients, s.plan[s.turn].client, OfManager(s.clock)),
         clock := s.clock + 1, manager := Asking(s.clock))
    case Reply => s.(manager := Offering(s.manager.k, s.plan[s.turn].files.value))
    case Offer =>
      s.(tasks := WithPhase(s.tasks, s.born, Waiting), jobs := s.jobs + [s.born],
         born := s.born + 1, manager := Offering(s.manager.k, s.manager.left - 1))
    case Release => s.(manager := Idle, turn := s.turn + 1)
    case Take => s.(tasks := WithPhase(s.tasks, s.jobs[0], Taken), jobs := s.jobs[1..])
    case ConnectSource(t) =>
      s.(clients := Arrive(s.clients, s.tasks[t].source, OfTask(t, true, s.clock)),
         tasks := WithPhase(s.tasks, t, OnSource(s.clock)), clock := s.clock + 1)
    case ConnectTarget(t) =>
      s.(clients := Arrive(s.clients, s.tasks[t].target, OfTask(t, false, s.clock)),
         tasks := WithPhase(s.tasks, t, OnBoth(s.tasks[t].phase.s, s.clock)), clock := s.clock + 1)
    case Transfer(t, chunks) =>
      var sent := Some(Series(s.tasks[t].targetPath, chunks, Complete));
      s.(tasks := WithPhase(s.tasks, t, Closed(s.tasks[t].phase.s, s.tasks[t].phase.t, sent)))
    case Refuse(t) =>
      s.(tasks := WithPhase(s.tasks, t, Closed(s.tasks[t].phase.s, s.tasks[t].phase.t, None)))
    case Hangup(c) => s.(clients := s.clients[c := Finish(s, s.clients[c])])
  }

  ghost predicate Reaches(from: System, trace: seq<Action>, s: System)
    decreases |trace|
  {
    if trace == [] then s == from
    else Enabled(from, trace[0]) && Reaches(Next(from, trace[0]), trace[1..], s)
  }

  // ---------------------------------------------------------------- where runs start

  function Count(listing: Listing): nat {
    if listing.files.Some? then listing.files.value else 0
  }

  /** The number of the first task of a listing. */
  function Start(plan: seq<Listing>, i: nat): nat
    requires i <= |plan|
  {
    if i == 0 then 0 else Start(plan, i - 1) + Count(plan[i - 1])
  }

  predicate InListing(plan: seq<Listing>, i: nat, t: nat) {
    i < |plan| && Start(plan, i) <= t < Start(plan, i) + Count(plan[i])
  }

  /** The tasks are those of the listings, and lie where they say. */
  ghost predicate PlanOk(plan: seq<Listing>, tasks: seq<Task>, clients: nat) {
    && Start(plan, |plan|) == |tasks|
    && (forall i :: 0 <= i < |plan| ==> plan[i].client < clients)
    && (forall i: nat, t: nat :: t < |tasks| && InListing(plan, i, t) ==> tasks[t].source == plan[i].client)
    && forall t :: 0 <= t < |tasks| ==> PlacedTask(tasks[t], clients)
  }

  predicate PlacedTask(task: Task, clients: nat) {
    task.source < clients && task.target < clients && IsPathWord(task.targetPath)
  }

  ghost predicate Init(s: System) {
    && s.limit >= 1 && s.capacity >= 1 && s.jobs == [] && s.turn == 0 && s.manager == Idle && s.born == 0
    && PlanOk(s.plan, s.tasks, |s.clients|)
    && (forall t :: 0 <= t < |s.tasks| ==> s.tasks[t].phase == Unlisted)
    && forall c :: 0 <= c < |s.clients| ==>
         s.clients[c].queue == [] && s.clients[c].served == [] && s.clients[c].server.Valid()
  }

  // ---------------------------------------------------------------- where they end

  /** Every source has been listed, every job is done, and no connection is left. */
  ghost predicate Done(s: System) {
    && s.turn == |s.plan| && s.manager == Idle
    && (forall t :: 0 <= t < |s.tasks| ==> s.tasks[t].phase.Closed?)
    && forall c :: 0 <= c < |s.clients| ==> s.clients[c].queue == []
  }

  /** The manager waits for the listing of a directory that cannot be opened: the client, which
      is serving it, has sent nothing and waits for the next command. */
  predicate Hung(s: System) {
    && s.manager.Asking? && s.turn < |s.plan| && s.plan[s.turn].files == None
    && HeadIs(s, s.plan[s.turn].client, OfManager(s.manager.k))
  }

  /** The task waits for the client that the manager holds, itself or behind other waiting ones. */
  predicate WaitsForManager(s: System, t: nat)
    decreases if t < |s.tasks| && s.tasks[t].phase.OnBoth? then s.tasks[t].phase.s else 0
  {
    && t < |s.tasks| && s.tasks[t].phase.OnBoth?
    && s.tasks[t].source < |s.clients| && s.clients[s.tasks[t].source].queue != []
    && match s.clients[s.tasks[t].source].queue[0]
       case OfManager(k) => Holding(s) == Some((k, s.tasks[t].source))
       case OfTask(u, _, _) =>
         && u < |s.tasks| && s.tasks[u].phase.OnBoth? && s.tasks[u].phase.s < s.tasks[t].phase.s
         && WaitsForManager(s, u)
  }

  /** The manager holds a client while it waits for room in the job queue; the queue is full, and
      every worker waits for that client. */
  ghost predicate Deadlocked(s: System) {
    && s.manager.Offering? && s.manager.left > 0 && s.turn < |s.plan|
    && HeadIs(s, s.plan[s.turn].client, OfManager(s.manager.k))
    && |s.jobs| == s.capacity && |Busy(s.tasks)| == s.limit
    && forall t :: t in Busy(s.tasks) ==> WaitsForManager(s, t)
  }
}
