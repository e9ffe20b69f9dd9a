/** The pool's linked list of jobs, updated in place (`src/thread_pool.c`).
    Each method is the code one thread runs between obtaining `queue_mutex` and giving it up,
    so it runs alone; what happens between two such sections is `WorkerPool`'s business. */
module JobQueue {
  import opened Jobs

  class SyncJob {
    const job: Job
    var next: SyncJob?

    constructor (job: Job)
      ensures this.job == job && next == null
    {
      this.job := job;
      next := null;
    }
  }

  datatype EnqueueResult = Sleeps | Rejected | Accepted

  datatype DequeueResult = Waits | Stopped | Delivered(node: SyncJob)

  function Values(nodes: seq<SyncJob>): (values: seq<Job>)
    ensures |values| == |nodes|
    ensures forall i :: 0 <= i < |nodes| ==> values[i] == nodes[i].job
  {
    seq(|nodes|, i requires 0 <= i < |nodes| => nodes[i].job)
  }

  class JobQueue {
    var head: SyncJob?
    var tail: SyncJob?
    var queueSize: int
    const bufferSize: int
    var shutdown: bool
    ghost var nodes: seq<SyncJob>

    /** `head` leads through `nodes` in order and stops at `tail`; no node occurs twice. */
    ghost predicate Valid()
      reads this, nodes
    {
      && (forall i, j :: 0 <= i < j < |nodes| ==> nodes[i] != nodes[j])
      && (forall i, j {:trigger nodes[i], nodes[j]} :: 0 <= i < j < |nodes| && j == i + 1 ==> nodes[i].next == nodes[j])
      && (nodes != [] ==> nodes[|nodes| - 1].next == null)
      && head == (if nodes == [] then null else nodes[0])
      && tail == (if nodes == [] then null else nodes[|nodes| - 1])
      && queueSize == |nodes|
    }

    ghost function Data(): PoolData
      reads this
    {
      PoolData(Values(nodes), queueSize, bufferSize, shutdown)
    }

    constructor (bufferSize: int)
      ensures Valid() && nodes == []
      ensures Data() == PoolData([], 0, bufferSize, false)
    {
      head, tail, queueSize, shutdown := null, null, 0, false;
      this.bufferSize := bufferSize;
      nodes := [];
    }

    /** `enqueue_sync_job` from the mutex to the next wait or to its return. */
    method EnqueueSection(node: SyncJob) returns (r: EnqueueResult)
      requires Valid() && node !in nodes && node.next == null
      modifies this, nodes
      ensures Valid()
      ensures r == Sleeps <==> old(Data()).MustWaitForRoom()
      ensures r == Rejected <==> old(shutdown)
      ensures r != Accepted ==> Data() == old(Data()) && nodes == old(nodes)
      ensures r == Accepted ==> Data() == old(Data()).Append(node.job) && nodes == old(nodes) + [node]
    {
      if shutdown {
        return Rejected;
      }
      if queueSize >= bufferSize && !shutdown {
        return Sleeps;
      }
      if tail != null {
        tail.next := node;
      } else {
        head := node;
      }
      tail := node;
      queueSize := queueSize + 1;
      nodes := nodes + [node];
      r := Accepted;
    }

    /** `dequeue_sync_job` from the mutex to the next wait or to its return. */
    method DequeueSection() returns (r: DequeueResult)
      requires Valid()
      modifies this, nodes
      ensures Valid()
      ensures r == Waits <==> old(Data()).MustWaitForJob()
      ensures r == Stopped <==> old(shutdown) && old(nodes) == []
      ensures !r.Delivered? ==> Data() == old(Data()) && nodes == old(nodes)
      ensures r.Delivered? ==> old(nodes) == [r.node] + nodes && r.node.next == null
      ensures r.Delivered? ==> Data() == old(Data()).RemoveHead()
    {
      if queueSize == 0 && !shutdown {
        return Waits;
      }
      if shutdown && queueSize == 0 {
        return Stopped;
      }
      var job := head;
      if job == null {
        return Stopped;
      }
      head := job.next;
      if head == null {
        tail := null;
      }
      queueSize := queueSize - 1;
      job.next := null;
      nodes := nodes[1..];
      r := Delivered(job);
    }

    method SignalShutdown()
      requires Valid()
      modifies this`shutdown
      ensures Valid() && Data() == old(Data()).(shutdown := true) && nodes == old(nodes)
    {
      shutdown := true;
    }

    /** The clean-up loop of `destroy_thread_pool`: every node left is freed, in order, once.
        The loop leaves `tail` and `queueSize` behind, so the list is no longer valid. */
    method FreeRemaining() returns (freed: seq<SyncJob>)
      requires Valid()
      modifies this`head
      ensures head == null && freed == old(nodes) && nodes == old(nodes)
    {
      freed := [];
      while head != null
        invariant |freed| <= |nodes| && freed == nodes[..|freed|]
        invariant head == if |freed| < |nodes| then nodes[|freed|] else null
        decreases |nodes| - |freed|
      {
        var job := head;
        head := job.next;
        freed := freed + [job];
      }
    }
  }
}
