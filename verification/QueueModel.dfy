/**
 The durable video queue of the Toonflow integration (integrations/toonflow/vgenLocal.ts and
 vgenRecovery.ts) as a state machine.

 One database is shared by any number of processes.  A tick is an asynchronous function: every
 `await` in it is a point where the process may run an add, a retry, a cancel or a close, or die.
 The machine therefore has one step per stretch of code between two awaits, and `Pc` says at which
 await the running tick is suspended.
 */
module QueueModel {
  import opened Common

  datatype JobState =
    | Queued | Checking | Submitting | Submitted | Running | Downloading
    | Succeeded | Failed | Cancelled | NeedsAttention

  predicate Terminal(s: JobState) {
    s.Succeeded? || s.Failed? || s.Cancelled? || s.NeedsAttention?
  }

  /** The states in which the remote side of a job may be in motion. */
  predicate Active(s: JobState) {
    s.Checking? || s.Submitting? || s.Submitted? || s.Running? || s.Downloading?
  }

  type JobId = string

  /** The normalised request; `pinned` says whether it carries a workflow digest to re-check. */
  datatype Request = Request(requestId: string, videoId: Option<int>, pinned: bool, content: string)

  /** SHA-256 of the request's JSON text, taken to be injective. */
  datatype Digest = Sha256(of: Request)

  datatype Job = Job(
    id: JobId,
    digest: Digest,
    request: Request,
    state: JobState,
    taskId: Option<string>,
    created: int)

  /** The await at which a tick is suspended; `Idle` when no tick is running (`busy` is false). */
  datatype Pc =
    | Idle
    | AwaitWorkflow(id: JobId)
    | AwaitPreflight(id: JobId)
    | AwaitSubmit(id: JobId)
    | AwaitShow(id: JobId, task: Option<string>)
    | AwaitGet(id: JobId, task: Option<string>)

  /** An open LocalQueue object: `closing` and the running tick. */
  datatype Instance = Instance(closing: bool, pc: Pc)

  /** The jobs table in insertion order, and the log of `submit` commands ever issued. */
  datatype Table = Table(jobs: seq<Job>, submits: seq<JobId>)

  datatype Queue = Queue(table: Table, inst: Instance)

  // ----- the table -----

  function SetState(jobs: seq<Job>, id: JobId, s: JobState): (r: seq<Job>)
    ensures |r| == |jobs|
    ensures forall k :: 0 <= k < |r| ==> r[k] == if jobs[k].id == id then jobs[k].(state := s) else jobs[k]
  {
    seq(|jobs|, k requires 0 <= k < |jobs| => if jobs[k].id == id then jobs[k].(state := s) else jobs[k])
  }

  function SetSubmitted(jobs: seq<Job>, id: JobId, task: string): (r: seq<Job>)
    ensures |r| == |jobs|
    ensures forall k :: 0 <= k < |r| ==>
      r[k] == if jobs[k].id == id then jobs[k].(state := Submitted, taskId := Some(task)) else jobs[k]
  {
    seq(|jobs|, k requires 0 <= k < |jobs| =>
      if jobs[k].id == id then jobs[k].(state := Submitted, taskId := Some(task)) else jobs[k])
  }

  /** What the catch clause of tick writes, from the row as it is when the error arrives. */
  function ErrorState(job: Job): JobState {
    if job.state.Submitting? then NeedsAttention
    else if job.taskId.Some? then job.state
    else Failed
  }

  function OnError(jobs: seq<Job>, id: JobId): (r: seq<Job>)
    ensures |r| == |jobs|
    ensures forall k :: 0 <= k < |r| ==>
      r[k] == if jobs[k].id == id then jobs[k].(state := ErrorState(jobs[k])) else jobs[k]
  {
    seq(|jobs|, k requires 0 <= k < |jobs| =>
      if jobs[k].id == id then jobs[k].(state := ErrorState(jobs[k])) else jobs[k])
  }

  /** The two UPDATE statements of the constructor. */
  function RecoveredState(s: JobState): JobState {
    if s.Checking? then Queued else if s.Submitting? then NeedsAttention else s
  }

  function Recover(jobs: seq<Job>): (r: seq<Job>)
    ensures |r| == |jobs|
    ensures forall k :: 0 <= k < |r| ==> r[k] == jobs[k].(state := RecoveredState(jobs[k].state))
  {
    seq(|jobs|, k requires 0 <= k < |jobs| => jobs[k].(state := RecoveredState(jobs[k].state)))
  }

  ghost predicate HasId(jobs: seq<Job>, id: JobId) {
    exists k :: 0 <= k < |jobs| && jobs[k].id == id
  }

  ghost predicate HasRequestId(jobs: seq<Job>, requestId: string) {
    exists k :: 0 <= k < |jobs| && jobs[k].request.requestId == requestId
  }

  /** Row i comes before row k in ORDER BY created ASC (rows with equal stamps in insertion order). */
  predicate Before(jobs: seq<Job>, i: nat, k: nat)
    requires i < |jobs| && k < |jobs|
  {
    jobs[i].created < jobs[k].created || (jobs[i].created == jobs[k].created && i < k)
  }

  /** Row h is what `rows().find(...)` yields: the first non-terminal row by creation stamp. */
  ghost predicate IsHead(jobs: seq<Job>, h: nat) {
    && h < |jobs|
    && !Terminal(jobs[h].state)
    && forall k :: 0 <= k < |jobs| && k != h && !Terminal(jobs[k].state) ==> Before(jobs, h, k)
  }

  ghost predicate NoHead(jobs: seq<Job>) {
    forall k :: 0 <= k < |jobs| ==> Terminal(jobs[k].state)
  }

  lemma {:induction false} HeadExists(jobs: seq<Job>)
    ensures NoHead(jobs) || exists h: nat :: IsHead(jobs, h)
  {
    if |jobs| > 0 {
      var n := |jobs| - 1;
      var rest := jobs[..n];
      HeadExists(rest);
      if Terminal(jobs[n].state) {
        if h: nat :| IsHead(rest, h) {
          assert IsHead(jobs, h);
        }
      } else if NoHead(rest) {
        assert forall k :: 0 <= k < n ==> Terminal(rest[k].state);
        assert IsHead(jobs, n);
      } else {
        var h: nat :| IsHead(rest, h);
        if jobs[n].created < jobs[h].created {
          assert forall k :: 0 <= k < n && !Terminal(rest[k].state) ==> k == h || Before(rest, h, k);
          assert IsHead(jobs, n);
        } else {
          assert IsHead(jobs, h);
        }
      }
    }
  }

  lemma HeadUnique(jobs: seq<Job>, h: nat, h': nat)
    requires IsHead(jobs, h) && IsHead(jobs, h')
    ensures h == h'
  {
  }

  ghost function Head(jobs: seq<Job>): (h: Option<nat>)
    ensures h.None? <==> NoHead(jobs)
    ensures h.Some? ==> IsHead(jobs, h.value)
  {
    HeadExists(jobs);
    if NoHead(jobs) then None else var h: nat :| IsHead(jobs, h); Some(h)
  }

  // ----- one tick, await by await -----

  datatype WorkflowReply = SameDigest | OtherDigest | WorkflowError
  datatype PreflightReply = Ready | NotReady | PreflightError
  datatype SubmitReply = TaskCreated(task: string) | SubmitError
  datatype ShowReply = TaskFailed | TaskCancelled | TaskSucceeded | TaskOther | ShowError
  datatype GetReply = OneVideo | OtherOutputs | GetError

  function Done(q: Queue, jobs: seq<Job>): Queue {
    Queue(q.table.(jobs := jobs), q.inst.(pc := Idle))
  }

  /** From the call of tick to its first await; `argsFail` says that writing the inputs threw. */
  ghost function TickStart(q: Queue, argsFail: bool): Queue {
    var jobs := q.table.jobs;
    if !q.inst.pc.Idle? || q.inst.closing || Head(jobs).None? then q
    else
      var row := jobs[Head(jobs).value];
      if row.state.Queued? then
        var checking := SetState(jobs, row.id, Checking);
        if argsFail then Done(q, OnError(checking, row.id))
        else
          Queue(q.table.(jobs := checking),
                q.inst.(pc := if row.request.pinned then AwaitWorkflow(row.id) else AwaitPreflight(row.id)))
      else q.(inst := q.inst.(pc := AwaitShow(row.id, row.taskId)))
  }

  function ResumeWorkflow(q: Queue, r: WorkflowReply): Queue {
    if !q.inst.pc.AwaitWorkflow? then q
    else
      var id := q.inst.pc.id;
      match r
      case SameDigest => q.(inst := q.inst.(pc := AwaitPreflight(id)))
      case OtherDigest => Done(q, SetState(q.table.jobs, id, Failed))
      case WorkflowError => Done(q, OnError(q.table.jobs, id))
  }

  function ResumePreflight(q: Queue, r: PreflightReply): Queue {
    if !q.inst.pc.AwaitPreflight? then q
    else
      var id := q.inst.pc.id;
      match r
      case NotReady => Done(q, SetState(q.table.jobs, id, Failed))
      case PreflightError => Done(q, OnError(q.table.jobs, id))
      case Ready =>
        if q.inst.closing then Done(q, SetState(q.table.jobs, id, Queued))
        else Queue(Table(SetState(q.table.jobs, id, Submitting), q.table.submits + [id]),
                   q.inst.(pc := AwaitSubmit(id)))
  }

  function ResumeSubmit(q: Queue, r: SubmitReply): Queue {
    if !q.inst.pc.AwaitSubmit? then q
    else
      var id := q.inst.pc.id;
      match r
      case TaskCreated(task) => Done(q, SetSubmitted(q.table.jobs, id, task))
      case SubmitError => Done(q, OnError(q.table.jobs, id))
  }

  function ResumeShow(q: Queue, r: ShowReply): Queue {
    if !q.inst.pc.AwaitShow? then q
    else
      var id := q.inst.pc.id;
      match r
      case TaskFailed => Done(q, SetState(q.table.jobs, id, Failed))
      case TaskCancelled => Done(q, SetState(q.table.jobs, id, Cancelled))
      case TaskSucceeded =>
        Queue(q.table.(jobs := SetState(q.table.jobs, id, Downloading)),
              q.inst.(pc := AwaitGet(id, q.inst.pc.task)))
      case TaskOther => Done(q, SetState(q.table.jobs, id, Running))
      case ShowError => Done(q, OnError(q.table.jobs, id))
  }

  function ResumeGet(q: Queue, r: GetReply): Queue {
    if !q.inst.pc.AwaitGet? then q
    else
      var id := q.inst.pc.id;
      match r
      case OneVideo => Done(q, SetState(q.table.jobs, id, Succeeded))
      case OtherOutputs => Done(q, SetState(q.table.jobs, id, Failed))
      case GetError => Done(q, OnError(q.table.jobs, id))
  }

  // ----- the other writers -----

  const MAX_OPEN_JOBS := 100

  function Unfinished(jobs: seq<Job>): (n: nat)
    ensures n <= |jobs|
  {
    if jobs == [] then 0
    else Unfinished(jobs[..|jobs| - 1]) + if Terminal(jobs[|jobs| - 1].state) then 0 else 1
  }

  function NewJob(id: JobId, digest: Digest, request: Request, now: int): Job {
    Job(id, digest, request, Queued, None, now)
  }

  /** What add answers: the known row, a refusal, or a new row. */
  datatype AddOutcome = Known(row: nat) | OtherContent | Full | KeyTaken | Inserted

  ghost predicate AddAnswers(jobs: seq<Job>, request: Request, id: JobId, a: AddOutcome) {
    if HasRequestId(jobs, request.requestId) then
      exists k :: 0 <= k < |jobs| && jobs[k].request.requestId == request.requestId &&
        a == if jobs[k].digest == Sha256(request) then Known(k) else OtherContent
    else if Unfinished(jobs) >= MAX_OPEN_JOBS then a.Full?
    else if HasId(jobs, id) then a.KeyTaken?
    else a.Inserted?
  }

  /** add: nothing is inserted for a known request id, a full queue, or a refused primary key. */
  ghost function AddJob(jobs: seq<Job>, request: Request, id: JobId, now: int): seq<Job> {
    if HasRequestId(jobs, request.requestId) || Unfinished(jobs) >= MAX_OPEN_JOBS || HasId(jobs, id) then jobs
    else jobs + [NewJob(id, Sha256(request), request, now)]
  }

  function RetryRequest(request: Request, suffix: string): (r: Request) {
    request.(requestId := request.requestId + ":retry:" + suffix)
  }

  /** retry of row k under a new id and request id; the digest is copied, and no cap applies. */
  ghost function RetryJob(jobs: seq<Job>, k: nat, id: JobId, suffix: string, now: int): seq<Job>
    requires k < |jobs|
  {
    var request := RetryRequest(jobs[k].request, suffix);
    if !(jobs[k].state.Failed? || jobs[k].state.Cancelled?) || HasId(jobs, id) || HasRequestId(jobs, request.requestId)
    then jobs
    else jobs + [NewJob(id, jobs[k].digest, request, now)]
  }

  /** Row k is the one cancelVgenVideo and retryVgenVideo pick: the first by creation for the video. */
  ghost predicate IsForVideo(jobs: seq<Job>, video: int, k: nat) {
    && k < |jobs|
    && jobs[k].request.videoId == Some(video)
    && forall i :: 0 <= i < |jobs| && i != k && jobs[i].request.videoId == Some(video) ==> Before(jobs, k, i)
  }
}
