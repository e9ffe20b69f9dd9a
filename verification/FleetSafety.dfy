/** The invariant of the whole system, kept by every step. */
module FleetSafety {
  import opened Options
  import opened FileServer
  import opened Fleet
  import opened ServerRuns

  // ---------------------------------------------------------------- connections

  /** The ticket a task holds for one of its connections. */
  function TicketOf(phase: Phase, toSource: bool): Option<nat> {
    match phase
    case OnSource(a) => if toSource then Some(a) else None
    case OnBoth(a, b) => Some(if toSource then a else b)
    case Closed(a, b, _) => Some(if toSource then a else b)
    case _ => None
  }

  ghost predicate QueueOk(queue: seq<Link>, c: nat, tasks: seq<Task>, clock: nat, held: Option<(nat, nat)>) {
    && (forall i, j :: 0 <= i < j < |queue| ==> queue[i].ticket < queue[j].ticket)
    && forall i :: 0 <= i < |queue| ==> LinkOk(queue[i], c, tasks, clock, held)
  }

  predicate LinkOk(link: Link, c: nat, tasks: seq<Task>, clock: nat, held: Option<(nat, nat)>) {
    && link.ticket < clock
    && match link
       case OfTask(t, toSource, k) =>
         && t < |tasks| && c == (if toSource then tasks[t].source else tasks[t].target)
         && TicketOf(tasks[t].phase, toSource) == Some(k)
       case OfManager(k) => held.Some? && held.value.0 == k ==> held.value.1 == c
  }

  /** A connection not yet closed is still queued; of a closed one, the target has served it
      exactly if it is not. */
  ghost predicate TaskOk(s: System, t: nat)
    requires t < |s.tasks|
  {
    var task := s.tasks[t];
    && PlacedTask(task, |s.clients|)
    && match task.phase
       case OnSource(a) =>
         && t !in s.clients[task.target].served && a < s.clock
         && OfTask(t, true, a) in s.clients[task.source].queue
       case OnBoth(a, b) =>
         && t !in s.clients[task.target].served && a < b < s.clock
         && OfTask(t, true, a) in s.clients[task.source].queue
         && OfTask(t, false, b) in s.clients[task.target].queue
       case Closed(a, b, sent) =>
         && (sent.Some? ==> IsSeries(sent.value) && sent.value.path == task.targetPath)
         && (t in s.clients[task.target].served <==> OfTask(t, false, b) !in s.clients[task.target].queue)
       case _ => t !in s.clients[task.target].served
  }

  /** What the manager asked for is still to be answered; a client it has had the listing from
      goes on serving it. */
  ghost predicate ManagerOk(s: System) {
    match s.manager
    case Idle => true
    case Asking(k) =>
      && s.turn < |s.plan| && s.plan[s.turn].client < |s.clients| && k < s.clock
      && OfManager(k) in s.clients[s.plan[s.turn].client].queue
    case Offering(k, left) =>
      && s.turn < |s.plan| && k < s.clock && s.plan[s.turn].files.Some? && left <= Count(s.plan[s.turn])
      && HeadIs(s, s.plan[s.turn].client, OfManager(k))
  }

  predicate ServedOk(served: seq<nat>, c: nat, tasks: seq<Task>) {
    && (forall i, j :: 0 <= i < j < |served| ==> served[i] != served[j])
    && forall i :: 0 <= i < |served| ==>
         served[i] < |tasks| && tasks[served[i]].target == c && tasks[served[i]].phase.Closed?
  }

  /** The series a client has taken in, in the order of service. */
  function SeriesOf(tasks: seq<Task>, served: seq<nat>): seq<Series> {
    if served == [] then []
    else SeriesOf(tasks, served[..|served| - 1]) + SeriesOfTask(tasks, served[|served| - 1])
  }

  function SeriesOfTask(tasks: seq<Task>, t: nat): seq<Series> {
    if t < |tasks| && tasks[t].phase.Closed? && tasks[t].phase.sent.Some? then [tasks[t].phase.sent.value] else []
  }

  ghost predicate ClientOk(s: System, c: nat, first: Server)
    requires c < |s.clients|
  {
    && QueueOk(s.clients[c].queue, c, s.tasks, s.clock, Holding(s))
    && ServedOk(s.clients[c].served, c, s.tasks)
    && s.clients[c].server == ServeAll(first, SeriesOf(s.tasks, s.clients[c].served))
  }

  ghost predicate LinksOk(s: System, firsts: seq<Server>) {
    && |firsts| == |s.clients| && ManagerOk(s)
    && (forall t :: 0 <= t < |s.tasks| ==> TaskOk(s, t))
    && forall c :: 0 <= c < |s.clients| ==> ClientOk(s, c, firsts[c])
  }

  // ---------------------------------------------------------------- a task moves on

  /** The task keeps the tickets it has. */
  predicate Moves(before: Phase, after: Phase) {
    && !before.Closed?
    && (TicketOf(before, true).Some? ==> TicketOf(after, true) == TicketOf(before, true))
    && (TicketOf(before, false).Some? ==> TicketOf(after, false) == TicketOf(before, false))
  }

  /** The manager keeps its connection, closes it, or makes a new one. */
  predicate HeldMoves(held: Option<(nat, nat)>, held': Option<(nat, nat)>, clock: nat) {
    held'.Some? ==> held' == held || held'.value.0 >= clock
  }

  lemma QueueKept(queue: seq<Link>, c: nat, tasks: seq<Task>, clock: nat, held: Option<(nat, nat)>,
                  tasks': seq<Task>, clock': nat, held': Option<(nat, nat)>)
    requires QueueOk(queue, c, tasks, clock, held) && clock <= clock' && HeldMoves(held, held', clock)
    requires TasksMove(tasks, tasks')
    ensures QueueOk(queue, c, tasks', clock', held')
  {
    forall i | 0 <= i < |queue|
      ensures LinkOk(queue[i], c, tasks', clock', held')
    {
      assert LinkOk(queue[i], c, tasks, clock, held);
    }
  }

  /** Tasks stay where they are and keep their tickets; what is closed stays as it is. */
  ghost predicate TasksMove(tasks: seq<Task>, tasks': seq<Task>) {
    && |tasks'| == |tasks|
    && forall t :: 0 <= t < |tasks| ==> (
         tasks'[t] == tasks[t]
         || (Moves(tasks[t].phase, tasks'[t].phase) && tasks'[t] == tasks[t].(phase := tasks'[t].phase)))
  }

  lemma QueueGrows(queue: seq<Link>, c: nat, tasks: seq<Task>, link: Link, held: Option<(nat, nat)>)
    requires QueueOk(queue, c, tasks, link.ticket, held) && LinkOk(link, c, tasks, link.ticket + 1, held)
    ensures QueueOk(queue + [link], c, tasks, link.ticket + 1, held)
  {
    var longer := queue + [link];
    forall i | 0 <= i < |longer|
      ensures LinkOk(longer[i], c, tasks, link.ticket + 1, held)
      ensures i < |queue| ==> longer[i].ticket < link.ticket
    {
      assert i < |queue| ==> LinkOk(queue[i], c, tasks, link.ticket, held);
    }
  }

  lemma {:induction false} SeriesKept(tasks: seq<Task>, tasks': seq<Task>, served: seq<nat>)
    requires forall i :: 0 <= i < |served| ==> SeriesOfTask(tasks, served[i]) == SeriesOfTask(tasks', served[i])
    ensures SeriesOf(tasks, served) == SeriesOf(tasks', served)
  {
    if served != [] {
      SeriesKept(tasks, tasks', served[..|served| - 1]);
    }
  }

  lemma ServedKept(served: seq<nat>, c: nat, tasks: seq<Task>, tasks': seq<Task>)
    requires ServedOk(served, c, tasks) && TasksMove(tasks, tasks')
    ensures ServedOk(served, c, tasks') && SeriesOf(tasks', served) == SeriesOf(tasks, served)
  {
    forall i | 0 <= i < |served|
      ensures tasks'[served[i]] == tasks[served[i]]
    {
    }
    SeriesKept(tasks, tasks', served);
  }

  /** A client to which nobody connects. */
  lemma ClientKept(s: System, c: nat, first: Server, s': System)
    requires c < |s.clients| && ClientOk(s, c, first)
    requires TasksMove(s.tasks, s'.tasks) && s.clock <= s'.clock && HeldMoves(Holding(s), Holding(s'), s.clock)
    requires c < |s'.clients| && s'.clients[c] == s.clients[c]
    ensures ClientOk(s', c, first)
  {
    QueueKept(s.clients[c].queue, c, s.tasks, s.clock, Holding(s), s'.tasks, s'.clock, Holding(s'));
    ServedKept(s.clients[c].served, c, s.tasks, s'.tasks);
  }

  /** A client to which somebody connects. */
  lemma ClientJoined(s: System, c: nat, first: Server, link: Link, s': System)
    requires c < |s.clients| && ClientOk(s, c, first)
    requires TasksMove(s.tasks, s'.tasks) && HeldMoves(Holding(s), Holding(s'), s.clock)
    requires link.ticket == s.clock && s'.clock == s.clock + 1
    requires LinkOk(link, c, s'.tasks, s'.clock, Holding(s'))
    requires c < |s'.clients| && s'.clients[c] == s.clients[c].(queue := s.clients[c].queue + [link])
    ensures ClientOk(s', c, first)
  {
    QueueKept(s.clients[c].queue, c, s.tasks, s.clock, Holding(s), s'.tasks, s.clock, Holding(s'));
    QueueGrows(s.clients[c].queue, c, s'.tasks, link, Holding(s'));
    ServedKept(s.clients[c].served, c, s.tasks, s'.tasks);
  }

  /** Queues only grow, so what is queued stays queued; who has been served stays the same. */
  ghost predicate OnlyGrown(s: System, s': System) {
    && |s'.clients| == |s.clients| && s.clock <= s'.clock
    && forall c :: 0 <= c < |s.clients| ==>
         s'.clients[c].served == s.clients[c].served && s.clients[c].queue <= s'.clients[c].queue
  }

  lemma QueuedStays(s: System, s': System, c: nat, link: Link)
    requires OnlyGrown(s, s') && c < |s.clients| && link in s.clients[c].queue
    ensures link in s'.clients[c].queue
  {
    var i :| 0 <= i < |s.clients[c].queue| && s.clients[c].queue[i] == link;
    assert s'.clients[c].queue[i] == link;
  }

  /** A task whose connections are not touched. */
  lemma TaskKept(s: System, t: nat, s': System)
    requires t < |s.tasks| && TaskOk(s, t) && OnlyGrown(s, s')
    requires t < |s'.tasks| && s'.tasks[t] == s.tasks[t]
    requires NewFor(s, t, s')
    ensures TaskOk(s', t)
  {
    var task := s.tasks[t];
    match task.phase
    case OnSource(a) => QueuedStays(s, s', task.source, OfTask(t, true, a));
    case OnBoth(a, b) =>
      QueuedStays(s, s', task.source, OfTask(t, true, a));
      QueuedStays(s, s', task.target, OfTask(t, false, b));
    case Closed(a, b, _) =>
      if OfTask(t, false, b) in s.clients[task.target].queue {
        QueuedStays(s, s', task.target, OfTask(t, false, b));
      }
    case _ =>
  }

  /** No new connection is this task's. */
  ghost predicate NewFor(s: System, t: nat, s': System) {
    forall c, link :: 0 <= c < |s.clients| && c < |s'.clients| && link in s'.clients[c].queue ==>
      link in s.clients[c].queue || link.OfManager? || link.task != t
  }

  lemma HeadStays(s: System, s': System, c: nat, link: Link)
    requires OnlyGrown(s, s') && HeadIs(s, c, link)
    ensures HeadIs(s', c, link)
  {
  }

  /** A step of somebody else leaves the manager's connection where it is. */
  lemma ManagerKept(s: System, s': System)
    requires ManagerOk(s) && OnlyGrown(s, s')
    requires s'.manager == s.manager && s'.plan == s.plan && s'.turn == s.turn
    ensures ManagerOk(s')
  {
    match s.manager
    case Idle =>
    case Asking(k) => QueuedStays(s, s', s.plan[s.turn].client, OfManager(k));
    case Offering(k, _) => HeadStays(s, s', s.plan[s.turn].client, OfManager(k));
  }

  // ---------------------------------------------------------------- a worker connects

  function Joined(s: System, t: nat, toSource: bool): Phase
    requires t < |s.tasks| && (toSource || s.tasks[t].phase.OnSource?)
  {
    if toSource then OnSource(s.clock) else OnBoth(s.tasks[t].phase.s, s.clock)
  }

  lemma JoinedTask(s: System, t: nat, toSource: bool, s': System)
    requires t < |s.tasks| && TaskOk(s, t) && OnlyGrown(s, s') && s'.clock == s.clock + 1
    requires if toSource then s.tasks[t].phase == Taken else s.tasks[t].phase.OnSource?
    requires var task := s.tasks[t];
      && s'.tasks == WithPhase(s.tasks, t, Joined(s, t, toSource))
      && OfTask(t, toSource, s.clock) in s'.clients[if toSource then task.source else task.target].queue
    ensures TaskOk(s', t)
  {
    if !toSource {
      QueuedStays(s, s', s.tasks[t].source, OfTask(t, true, s.tasks[t].phase.s));
    }
  }

  /** A worker connects its task to the source or to the target. */
  ghost predicate Connects(s: System, t: nat, toSource: bool, s': System) {
    && t < |s.tasks| && (if toSource then s.tasks[t].phase == Taken else s.tasks[t].phase.OnSource?)
    && var at := if toSource then s.tasks[t].source else s.tasks[t].target;
       s' == s.(clients := Arrive(s.clients, at, OfTask(t, toSource, s.clock)),
                tasks := WithPhase(s.tasks, t, Joined(s, t, toSource)), clock := s.clock + 1)
  }

  lemma ConnectClient(s: System, t: nat, toSource: bool, s': System, c: nat, first: Server)
    requires Connects(s, t, toSource, s') && c < |s.clients| && ClientOk(s, c, first)
    ensures c < |s'.clients| && ClientOk(s', c, first)
  {
    var at := if toSource then s.tasks[t].source else s.tasks[t].target;
    if c == at {
      ClientJoined(s, c, first, OfTask(t, toSource, s.clock), s');
    } else {
      ClientKept(s, c, first, s');
    }
  }

  lemma ConnectTasks(s: System, t: nat, toSource: bool, s': System)
    requires Connects(s, t, toSource, s') && ManagerOk(s)
    requires forall u :: 0 <= u < |s.tasks| ==> TaskOk(s, u)
    ensures ManagerOk(s') && forall u :: 0 <= u < |s'.tasks| ==> TaskOk(s', u)
  {
    var at := if toSource then s.tasks[t].source else s.tasks[t].target;
    assert TaskOk(s, t);
    assert s'.clients[at].queue == s.clients[at].queue + [OfTask(t, toSource, s.clock)];
    assert OnlyGrown(s, s');
    ManagerKept(s, s');
    forall u | 0 <= u < |s'.tasks|
      ensures TaskOk(s', u)
    {
      assert TaskOk(s, u);
      if u == t {
        JoinedTask(s, t, toSource, s');
      } else {
        TaskKept(s, u, s');
      }
    }
  }

  lemma ConnectLinks(s: System, t: nat, toSource: bool, s': System, firsts: seq<Server>)
    requires LinksOk(s, firsts) && Connects(s, t, toSource, s')
    ensures LinksOk(s', firsts)
  {
    ConnectTasks(s, t, toSource, s');
    forall c | 0 <= c < |s'.clients|
      ensures ClientOk(s', c, firsts[c])
    {
      assert ClientOk(s, c, firsts[c]);
      ConnectClient(s, t, toSource, s', c, firsts[c]);
    }
  }

  // ---------------------------------------------------------------- steps that make no connection

  /** One task takes a new phase, and perhaps the manager too, while every client stays as it is. */
  lemma PhaseLinks(s: System, t: nat, phase: Phase, s': System, firsts: seq<Server>)
    requires LinksOk(s, firsts) && t < |s.tasks|
    requires s'.clients == s.clients && s'.clock == s.clock && s'.plan == s.plan
    requires s'.tasks == WithPhase(s.tasks, t, phase) && Moves(s.tasks[t].phase, phase)
    requires phase.Closed? ==> s.tasks[t].phase.OnBoth?
    requires phase.Closed? && phase.sent.Some? ==>
      IsSeries(phase.sent.value) && phase.sent.value.path == s.tasks[t].targetPath
    requires !phase.Closed? ==> phase.Waiting? || phase.Taken?
    requires HeldMoves(Holding(s), Holding(s'), s.clock) && ManagerOk(s')
    ensures LinksOk(s', firsts)
  {
    forall c | 0 <= c < |s'.clients|
      ensures ClientOk(s', c, firsts[c])
    {
      ClientKept(s, c, firsts[c], s');
    }
    forall u | 0 <= u < |s'.tasks|
      ensures TaskOk(s', u)
    {
      assert TaskOk(s, u);
      if u != t {
        TaskKept(s, u, s');
      }
    }
  }

  /** The manager goes on with the connection it has, or closes it. */
  lemma ManagerLinks(s: System, s': System, firsts: seq<Server>)
    requires LinksOk(s, firsts)
    requires s'.clients == s.clients && s'.clock == s.clock && s'.tasks == s.tasks
    requires HeldMoves(Holding(s), Holding(s'), s.clock) && ManagerOk(s')
    ensures LinksOk(s', firsts)
  {
    forall c | 0 <= c < |s'.clients|
      ensures ClientOk(s', c, firsts[c])
    {
      ClientKept(s, c, firsts[c], s');
    }
    forall u | 0 <= u < |s'.tasks|
      ensures TaskOk(s', u)
    {
      assert TaskOk(s, u);
      TaskKept(s, u, s');
    }
  }

  lemma AskLinks(s: System, firsts: seq<Server>)
    requires LinksOk(s, firsts) && Enabled(s, Ask) && s.plan[s.turn].client < |s.clients|
    ensures LinksOk(Next(s, Ask), firsts)
  {
    var s', at, link := Next(s, Ask), s.plan[s.turn].client, OfManager(s.clock);
    assert s'.clients[at].queue == s.clients[at].queue + [link];
    forall c | 0 <= c < |s'.clients|
      ensures ClientOk(s', c, firsts[c])
    {
      assert ClientOk(s, c, firsts[c]);
      if c == at {
        ClientJoined(s, c, firsts[c], link, s');
      } else {
        ClientKept(s, c, firsts[c], s');
      }
    }
    assert OnlyGrown(s, s');
    forall u | 0 <= u < |s'.tasks|
      ensures TaskOk(s', u)
    {
      assert TaskOk(s, u);
      TaskKept(s, u, s');
    }
  }

  // ---------------------------------------------------------------- a client hangs up

  /** After the head of a queue has gone. */
  lemma QueueShrinks(queue: seq<Link>, c: nat, tasks: seq<Task>, clock: nat, held: Option<(nat, nat)>)
    requires QueueOk(queue, c, tasks, clock, held) && queue != []
    ensures QueueOk(queue[1..], c, tasks, clock, held) && queue[0] !in queue[1..]
    ensures forall link :: link in queue[1..] <==> link in queue && link != queue[0]
  {
    assert forall i :: 0 <= i < |queue| - 1 ==> queue[1..][i] == queue[i + 1];
    assert queue == [queue[0]] + queue[1..];
  }

  lemma SeriesMore(tasks: seq<Task>, served: seq<nat>, t: nat)
    ensures SeriesOf(tasks, served + [t]) == SeriesOf(tasks, served) + SeriesOfTask(tasks, t)
  {
    assert (served + [t])[..|served|] == served;
  }

  lemma ServeMore(first: Server, series: seq<Series>, sent: Option<Series>)
    ensures Absorb(ServeAll(first, series), sent)
      == ServeAll(first, series + (if sent.Some? then [sent.value] else []))
  {
    if sent.Some? {
      assert (series + [sent.value])[..|series|] == series;
    } else {
      assert series + [] == series;
    }
  }

  lemma ServedGrows(s: System, c: nat, t: nat, b: nat)
    requires c < |s.clients| && ServedOk(s.clients[c].served, c, s.tasks)
    requires t < |s.tasks| && TaskOk(s, t) && s.tasks[t].phase.Closed? && s.tasks[t].target == c
    requires s.tasks[t].phase.t == b && OfTask(t, false, b) in s.clients[c].queue
    ensures ServedOk(s.clients[c].served + [t], c, s.tasks)
  {
    assert t !in s.clients[c].served;
  }

  lemma HangupClient(s: System, c: nat, first: Server, s': System)
    requires c < |s.clients| && ClientOk(s, c, first) && Enabled(s, Hangup(c)) && s' == Next(s, Hangup(c))
    requires s.clients[c].queue[0].OfTask? ==> TaskOk(s, s.clients[c].queue[0].task)
    ensures ClientOk(s', c, first)
  {
    var client := s.clients[c];
    var link := client.queue[0];
    QueueShrinks(client.queue, c, s.tasks, s.clock, Holding(s));
    assert LinkOk(link, c, s.tasks, s.clock, Holding(s));
    if link.OfTask? && !link.toSource {
      var sent := s.tasks[link.task].phase.sent;
      ServedGrows(s, c, link.task, link.ticket);
      SeriesMore(s.tasks, client.served, link.task);
      ServeMore(first, SeriesOf(s.tasks, client.served), sent);
    }
  }

  lemma HangupTask(s: System, c: nat, u: nat, s': System)
    requires c < |s.clients| && Enabled(s, Hangup(c)) && s' == Next(s, Hangup(c))
    requires QueueOk(s.clients[c].queue, c, s.tasks, s.clock, Holding(s)) && u < |s.tasks| && TaskOk(s, u)
    ensures TaskOk(s', u)
  {
    var link := s.clients[c].queue[0];
    QueueShrinks(s.clients[c].queue, c, s.tasks, s.clock, Holding(s));
    assert LinkOk(link, c, s.tasks, s.clock, Holding(s));
    assert u in s'.clients[c].served <==>
      u in s.clients[c].served || (link.OfTask? && !link.toSource && u == link.task);
  }

  lemma HangupManager(s: System, c: nat, s': System)
    requires c < |s.clients| && Enabled(s, Hangup(c)) && s' == Next(s, Hangup(c))
    requires QueueOk(s.clients[c].queue, c, s.tasks, s.clock, Holding(s)) && ManagerOk(s)
    ensures ManagerOk(s')
  {
    QueueShrinks(s.clients[c].queue, c, s.tasks, s.clock, Holding(s));
  }

  lemma HangupLinks(s: System, c: nat, firsts: seq<Server>)
    requires LinksOk(s, firsts) && Enabled(s, Hangup(c))
    ensures LinksOk(Next(s, Hangup(c)), firsts)
  {
    var s' := Next(s, Hangup(c));
    assert ClientOk(s, c, firsts[c]);
    forall k | 0 <= k < |s'.clients|
      ensures ClientOk(s', k, firsts[k])
    {
      assert ClientOk(s, k, firsts[k]);
      if k == c { HangupClient(s, c, firsts[c], s'); }
    }
    HangupManager(s, c, s');
    forall u | 0 <= u < |s'.tasks|
      ensures TaskOk(s', u)
    {
      HangupTask(s, c, u, s');
    }
  }
}
