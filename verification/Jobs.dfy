/** The unit of work and the data the pool's mutex protects (`include/common.h:65-113`). */
module Jobs {
  import opened CText
  import opened DirectorySpec

  const MAX_FILENAME: nat := 256

  /** One allocated `sync_job_t`; `id` tells two allocations with equal fields apart. */
  datatype Job = Job(id: nat, source: Endpoint, target: Endpoint, filename: string)

  /** The texts fit the arrays they are copied to. */
  predicate Fits(e: Endpoint) { |e.host| < MAX_HOST && |e.dir| < MAX_PATH }

  function CopyEndpoint(e: Endpoint): (copy: Endpoint)
    ensures Fits(copy) && copy.port == e.port && copy.host <= e.host && copy.dir <= e.dir
    ensures Fits(e) ==> copy == e
  {
    Endpoint(Field(e.host, MAX_HOST), e.port, Field(e.dir, MAX_PATH))
  }

  /** `create_sync_job`: every text field is cut to its array. */
  function CreateJob(id: nat, source: Endpoint, target: Endpoint, filename: string): (job: Job)
    ensures job.id == id && job.filename <= filename
    ensures Fits(source) ==> job.source == source
    ensures Fits(target) ==> job.target == target
    ensures |filename| < MAX_FILENAME ==> job.filename == filename
    ensures |filename| >= MAX_FILENAME ==> |job.filename| == MAX_FILENAME - 1
  {
    Job(id, CopyEndpoint(source), CopyEndpoint(target), Field(filename, MAX_FILENAME))
  }

  /** The fields guarded by `queue_mutex`, with the linked list read as a sequence. */
  datatype PoolData = PoolData(queue: seq<Job>, size: int, capacity: int, shutdown: bool) {
    /** The loop test of `enqueue_sync_job`. */
    predicate MustWaitForRoom() { size >= capacity && !shutdown }

    /** The loop test of `dequeue_sync_job`. */
    predicate MustWaitForJob() { size == 0 && !shutdown }

    function Append(job: Job): PoolData {
      this.(queue := queue + [job], size := size + 1)
    }

    function RemoveHead(): PoolData
      requires queue != []
    {
      this.(queue := queue[1..], size := size - 1)
    }
  }
}
