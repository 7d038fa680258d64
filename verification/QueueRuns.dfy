/**
 Runs of the Toonflow queue: processes that start, open the queue, tick, add, retry, cancel, close
 and die in any order, all over one database.
 */
module QueueRuns {
  import opened Common
  import opened QueueModel

  /** A live process: its open queue, if any, and the cancels waiting for the remote reply. */
  datatype Process = Process(queue: Option<Instance>, cancels: multiset<JobId>)

  datatype World = World(table: Table, owner: nat, procs: map<nat, Process>)

  datatype Event =
    | Start(pid: nat)
    | Crash(pid: nat)
    | Open(pid: nat, otherAlive: bool)
    | Tick(pid: nat, argsFail: bool)
    | WorkflowDone(pid: nat, workflow: WorkflowReply)
    | PreflightDone(pid: nat, preflight: PreflightReply)
    | CrashBeforeSubmit(pid: nat)
    | SubmitDone(pid: nat, submit: SubmitReply)
    | ShowDone(pid: nat, show: ShowReply)
    | GetDone(pid: nat, get: GetReply)
    | Add(pid: nat, request: Request, id: JobId, now: int)
    | Retry(pid: nat, row: nat, id: JobId, suffix: string, now: int)
    | CancelBegin(pid: nat, row: nat)
    | CancelEnd(pid: nat, job: JobId, ok: bool)
    | CloseBegin(pid: nat)
    | CloseEnd(pid: nat)

  const NO_WORLD := World(Table([], []), 0, map[])

  predicate IsOpen(w: World, pid: nat) {
    pid in w.procs && w.procs[pid].queue.Some?
  }

  function InstanceOf(w: World, pid: nat): Instance
    requires IsOpen(w, pid)
  {
    w.procs[pid].queue.value
  }

  function QueueOf(w: World, pid: nat): Queue
    requires IsOpen(w, pid)
  {
    Queue(w.table, InstanceOf(w, pid))
  }

  function Put(w: World, pid: nat, q: Queue): World
    requires IsOpen(w, pid)
  {
    World(q.table, w.owner, w.procs[pid := w.procs[pid].(queue := Some(q.inst))])
  }

  function WithJobs(w: World, jobs: seq<Job>): World {
    w.(table := w.table.(jobs := jobs))
  }

  /** The constructor: refused while the recorded owner is alive, otherwise it recovers the table. */
  function OpenQueue(w: World, pid: nat, otherAlive: bool): World
    requires pid in w.procs
  {
    if w.owner != 0 && (w.owner in w.procs || otherAlive) then w
    else World(w.table.(jobs := Recover(w.table.jobs)), pid,
               w.procs[pid := w.procs[pid].(queue := Some(Instance(false, Idle)))])
  }

  ghost function Next(w: World, e: Event): World {
    if e.Start? then
      if e.pid == 0 || e.pid in w.procs then w else w.(procs := w.procs[e.pid := Process(None, multiset{})])
    else if e.pid !in w.procs then w
    else if e.Crash? then w.(procs := w.procs - {e.pid})
    else if e.Open? then
      if IsOpen(w, e.pid) then w else OpenQueue(w, e.pid, e.otherAlive)
    else if e.CancelEnd? then EndCancel(w, e)
    else if !IsOpen(w, e.pid) then w
    else OpenStep(w, e)
  }

  /** The second half of cancelVgenVideo, after the remote cancel answered. */
  function EndCancel(w: World, e: Event): World
    requires e.CancelEnd? && e.pid in w.procs
  {
    if e.job !in w.procs[e.pid].cancels then w
    else
      var w' := w.(procs := w.procs[e.pid := w.procs[e.pid].(cancels := w.procs[e.pid].cancels - multiset{e.job})]);
      if e.ok && IsOpen(w, e.pid) then WithJobs(w', SetState(w.table.jobs, e.job, Cancelled)) else w'
  }

  /** The steps of the open queue object itself. */
  ghost function QueueStep(q: Queue, e: Event): Queue {
    match e
    case Tick(_, f) => TickStart(q, f)
    case WorkflowDone(_, r) => ResumeWorkflow(q, r)
    case PreflightDone(_, r) => ResumePreflight(q, r)
    case SubmitDone(_, r) => ResumeSubmit(q, r)
    case ShowDone(_, r) => ResumeShow(q, r)
    case GetDone(_, r) => ResumeGet(q, r)
    case CloseBegin(_) => q.(inst := q.inst.(closing := true))
    case _ => q
  }

  ghost function OpenStep(w: World, e: Event): World
    requires !e.Start? && !e.Crash? && !e.Open? && !e.CancelEnd? && IsOpen(w, e.pid)
  {
    var q := QueueOf(w, e.pid);
    match e
    case CrashBeforeSubmit(p) =>
      // The process dies after writing `submitting` and before starting the submit command.
      if q.inst.pc.AwaitPreflight? && !q.inst.closing
      then WithJobs(w, SetState(w.table.jobs, q.inst.pc.id, Submitting)).(procs := w.procs - {p})
      else w
    case Add(p, request, id, now) => WithJobs(w, AddJob(w.table.jobs, request, id, now))
    case Retry(p, k, id, suffix, now) =>
      if k < |w.table.jobs| then WithJobs(w, RetryJob(w.table.jobs, k, id, suffix, now)) else w
    case CancelBegin(p, k) =>
      if k >= |w.table.jobs| || Terminal(w.table.jobs[k].state) then w
      else if w.table.jobs[k].taskId.None?
      then WithJobs(w, SetState(w.table.jobs, w.table.jobs[k].id, Cancelled))
      else w.(procs := w.procs[p := w.procs[p].(cancels := w.procs[p].cancels + multiset{w.table.jobs[k].id})])
    case CloseEnd(p) =>
      if q.inst.closing && q.inst.pc.Idle?
      then World(w.table, if w.owner == p then 0 else w.owner, w.procs[p := w.procs[p].(queue := None)])
      else w
    case _ => Put(w, e.pid, QueueStep(q, e))
  }

  ghost function Run(w: World, es: seq<Event>): World {
    if es == [] then w else Next(Run(w, es[..|es| - 1]), es[|es| - 1])
  }

  // ----- what every step keeps -----

  predicate NoDup(s: seq<JobId>) {
    forall i, j :: 0 <= i < j < |s| ==> s[i] != s[j]
  }

  ghost predicate DistinctIds(jobs: seq<Job>) {
    forall i, j :: 0 <= i < j < |jobs| ==> jobs[i].id != jobs[j].id
  }

  predicate NeedsTask(s: JobState) {
    s.Submitted? || s.Running? || s.Downloading? || s.Succeeded?
  }

  /** A row that may still be submitted has never been submitted; a remote state has a task id. */
  ghost predicate JobOk(job: Job, submits: seq<JobId>) {
    && (job.state.Queued? || job.state.Checking? ==> job.id !in submits && job.taskId.None?)
    && (job.state.Submitting? ==> job.taskId.None?)
    && (NeedsTask(job.state) ==> job.taskId.Some?)
    && |job.digest.of.requestId| <= |job.request.requestId|
  }

  ghost predicate TableOk(t: Table) {
    && DistinctIds(t.jobs)
    && NoDup(t.submits)
    && (forall i :: 0 <= i < |t.submits| ==> HasId(t.jobs, t.submits[i]))
    && (forall k :: 0 <= k < |t.jobs| ==> JobOk(t.jobs[k], t.submits))
  }

  /** What is known of the row a suspended tick will write to when it resumes. */
  ghost predicate PcJobOk(job: Job, submits: seq<JobId>, pc: Pc)
    requires !pc.Idle?
  {
    match pc
    case AwaitWorkflow(id) => (job.state.Checking? || job.state.Cancelled?) && job.taskId.None? && id !in submits
    case AwaitPreflight(id) => (job.state.Checking? || job.state.Cancelled?) && job.taskId.None? && id !in submits
    case AwaitSubmit(id) => (job.state.Submitting? || job.state.Cancelled?) && job.taskId.None?
    case AwaitShow(id, task) =>
      && (job.state.Submitted? || job.state.Running? || job.state.Downloading? || job.state.Cancelled?)
      && task.Some? && job.taskId == task
    case AwaitGet(id, task) =>
      (job.state.Downloading? || job.state.Cancelled?) && task.Some? && job.taskId == task
  }

  predicate BeforeSubmit(pc: Pc) {
    pc.AwaitWorkflow? || pc.AwaitPreflight?
  }

  /** Only the running tick's own row is in checking or submitting while a queue is open. */
  ghost predicate InstanceOk(t: Table, pc: Pc) {
    && (!pc.Idle? ==> HasId(t.jobs, pc.id))
    && (forall k :: 0 <= k < |t.jobs| ==>
         && (!pc.Idle? && t.jobs[k].id == pc.id ==> PcJobOk(t.jobs[k], t.submits, pc))
         && (t.jobs[k].state.Checking? ==> BeforeSubmit(pc) && pc.id == t.jobs[k].id)
         && (t.jobs[k].state.Submitting? ==> pc.AwaitSubmit? && pc.id == t.jobs[k].id))
  }

  ghost predicate Inv(w: World) {
    && 0 !in w.procs
    && TableOk(w.table)
    && (forall p :: p in w.procs && w.procs[p].queue.Some? ==>
         w.owner == p && InstanceOk(w.table, w.procs[p].queue.value.pc))
  }

  ghost predicate QueueOk(q: Queue) {
    TableOk(q.table) && InstanceOk(q.table, q.inst.pc)
  }

  lemma TickStartOk(q: Queue, argsFail: bool)
    requires QueueOk(q)
    ensures QueueOk(TickStart(q, argsFail))
  {
    var jobs := q.table.jobs;
    if q.inst.pc.Idle? && !q.inst.closing && Head(jobs).Some? {
      if jobs[Head(jobs).value].state.Queued? {
        StartCheckingOk(q, Head(jobs).value, argsFail);
      } else {
        StartPollingOk(q, Head(jobs).value);
      }
    }
  }

  lemma StartCheckingOk(q: Queue, h: nat, argsFail: bool)
    requires QueueOk(q) && q.inst.pc.Idle? && !q.inst.closing && Head(q.table.jobs) == Some(h)
    requires q.table.jobs[h].state.Queued?
    ensures QueueOk(TickStart(q, argsFail))
  {
    var q' := TickStart(q, argsFail);
    SameIds(q.table, q'.table);
    assert q'.table.jobs[h].id == q.table.jobs[h].id;
  }

  lemma StartPollingOk(q: Queue, h: nat)
    requires QueueOk(q) && q.inst.pc.Idle? && !q.inst.closing && Head(q.table.jobs) == Some(h)
    requires !q.table.jobs[h].state.Queued?
    ensures QueueOk(TickStart(q, false)) && QueueOk(TickStart(q, true))
  {
  }

  /** Rewriting states and task ids keeps ids distinct and submitted ids present. */
  lemma SameIds(t: Table, t': Table)
    requires DistinctIds(t.jobs) && |t'.jobs| == |t.jobs|
    requires forall k :: 0 <= k < |t.jobs| ==> t'.jobs[k].id == t.jobs[k].id
    ensures DistinctIds(t'.jobs)
    ensures forall id :: HasId(t.jobs, id) <==> HasId(t'.jobs, id)
  {
    forall id
      ensures HasId(t.jobs, id) <==> HasId(t'.jobs, id)
    {
      if HasId(t.jobs, id) {
        var k :| 0 <= k < |t.jobs| && t.jobs[k].id == id;
        assert t'.jobs[k].id == id;
      }
      if HasId(t'.jobs, id) {
        var k :| 0 <= k < |t'.jobs| && t'.jobs[k].id == id;
        assert t.jobs[k].id == id;
      }
    }
  }

  lemma ResumeWorkflowOk(q: Queue, r: WorkflowReply)
    requires QueueOk(q)
    ensures QueueOk(ResumeWorkflow(q, r))
  {
    SameIds(q.table, ResumeWorkflow(q, r).table);
  }

  lemma ResumePreflightOk(q: Queue, r: PreflightReply)
    requires QueueOk(q)
    ensures QueueOk(ResumePreflight(q, r))
  {
    SameIds(q.table, ResumePreflight(q, r).table);
    if q.inst.pc.AwaitPreflight? && r.Ready? && !q.inst.closing {
      IssueSubmitOk(q);
    }
  }

  /** The step that issues a submit command: the row was never submitted before. */
  lemma IssueSubmitOk(q: Queue)
    requires QueueOk(q) && q.inst.pc.AwaitPreflight? && !q.inst.closing
    ensures QueueOk(ResumePreflight(q, Ready))
  {
    var q' := ResumePreflight(q, Ready);
    SameIds(q.table, q'.table);
    forall i | 0 <= i < |q'.table.submits|
      ensures HasId(q'.table.jobs, q'.table.submits[i])
    {
      if i < |q.table.submits| {
        assert q'.table.submits[i] == q.table.submits[i];
      }
    }
  }

  lemma ResumeSubmitOk(q: Queue, r: SubmitReply)
    requires QueueOk(q)
    ensures QueueOk(ResumeSubmit(q, r))
  {
    SameIds(q.table, ResumeSubmit(q, r).table);
  }

  lemma ResumeShowOk(q: Queue, r: ShowReply)
    requires QueueOk(q)
    ensures QueueOk(ResumeShow(q, r))
  {
    SameIds(q.table, ResumeShow(q, r).table);
  }

  lemma ResumeGetOk(q: Queue, r: GetReply)
    requires QueueOk(q)
    ensures QueueOk(ResumeGet(q, r))
  {
    SameIds(q.table, ResumeGet(q, r).table);
  }

  lemma QueueStepOk(q: Queue, e: Event)
    requires QueueOk(q)
    ensures QueueOk(QueueStep(q, e))
  {
    match e
    case Tick(_, f) => TickStartOk(q, f);
    case WorkflowDone(_, r) => ResumeWorkflowOk(q, r);
    case PreflightDone(_, r) => ResumePreflightOk(q, r);
    case SubmitDone(_, r) => ResumeSubmitOk(q, r);
    case ShowDone(_, r) => ResumeShowOk(q, r);
    case GetDone(_, r) => ResumeGetOk(q, r);
    case _ =>
  }

  /** A cancel may land at any await of the running tick. */
  lemma CancelOk(q: Queue, id: JobId)
    requires QueueOk(q)
    ensures QueueOk(q.(table := q.table.(jobs := SetState(q.table.jobs, id, Cancelled))))
  {
    SameIds(q.table, q.table.(jobs := SetState(q.table.jobs, id, Cancelled)));
  }

  lemma InsertOk(q: Queue, job: Job)
    requires QueueOk(q) && !HasId(q.table.jobs, job.id) && job.state.Queued? && job.taskId.None?
    requires |job.digest.of.requestId| <= |job.request.requestId|
    ensures QueueOk(q.(table := q.table.(jobs := q.table.jobs + [job])))
  {
    var jobs' := q.table.jobs + [job];
    forall id | HasId(q.table.jobs, id)
      ensures HasId(jobs', id)
    {
      var k :| 0 <= k < |q.table.jobs| && q.table.jobs[k].id == id;
      assert jobs'[k].id == id;
    }
    forall i, k | 0 <= i < k < |jobs'|
      ensures jobs'[i].id != jobs'[k].id
    {
      if k == |q.table.jobs| {
        assert q.table.jobs[i].id != job.id;
      }
    }
  }

  lemma RecoverOk(t: Table)
    requires TableOk(t)
    ensures QueueOk(Queue(t.(jobs := Recover(t.jobs)), Instance(false, Idle)))
  {
    SameIds(t, t.(jobs := Recover(t.jobs)));
  }

  /** The row is written, the process is gone: the table alone stays well formed. */
  lemma CrashBeforeSubmitOk(q: Queue)
    requires QueueOk(q) && q.inst.pc.AwaitPreflight?
    ensures TableOk(q.table.(jobs := SetState(q.table.jobs, q.inst.pc.id, Submitting)))
  {
    SameIds(q.table, q.table.(jobs := SetState(q.table.jobs, q.inst.pc.id, Submitting)));
  }

  lemma NextKeepsInv(w: World, e: Event)
    requires Inv(w)
    ensures Inv(Next(w, e))
  {
    if e.Start? || e.pid !in w.procs || e.Crash? {
    } else if e.Open? {
      RecoverOk(w.table);
    } else if e.CancelEnd? {
      if IsOpen(w, e.pid) {
        CancelOk(QueueOf(w, e.pid), e.job);
      }
    } else if IsOpen(w, e.pid) {
      OpenStepKeepsInv(w, e);
    }
  }

  lemma OpenStepKeepsInv(w: World, e: Event)
    requires Inv(w) && !e.Start? && !e.Crash? && !e.Open? && !e.CancelEnd? && IsOpen(w, e.pid)
    ensures Inv(OpenStep(w, e))
  {
    var q := QueueOf(w, e.pid);
    QueueStepOk(q, e);
    match e
    case CrashBeforeSubmit(p) => if q.inst.pc.AwaitPreflight? { CrashBeforeSubmitOk(q); }
    case Add(p, request, id, now) =>
      if AddJob(w.table.jobs, request, id, now) != w.table.jobs {
        InsertOk(q, NewJob(id, Sha256(request), request, now));
      }
    case Retry(p, k, id, suffix, now) =>
      if k < |w.table.jobs| && RetryJob(w.table.jobs, k, id, suffix, now) != w.table.jobs {
        InsertOk(q, NewJob(id, w.table.jobs[k].digest, RetryRequest(w.table.jobs[k].request, suffix), now));
      }
    case CancelBegin(p, k) => if k < |w.table.jobs| { CancelOk(q, w.table.jobs[k].id); }
    case _ =>
  }

  lemma {:induction false} RunKeepsInv(es: seq<Event>)
    ensures Inv(Run(NO_WORLD, es))
  {
    if es != [] {
      RunKeepsInv(es[..|es| - 1]);
      NextKeepsInv(Run(NO_WORLD, es[..|es| - 1]), es[|es| - 1]);
    }
  }

  // ----- safety over whole runs -----

  /** No job is ever submitted twice, whatever is interleaved, cancelled, killed or restarted. */
  lemma SubmitAtMostOnce(es: seq<Event>)
    ensures NoDup(Run(NO_WORLD, es).table.submits)
  {
    RunKeepsInv(es);
  }

  /** Two processes never have the queue open at the same time. */
  lemma OneOwner(es: seq<Event>, p: nat, p': nat)
    requires IsOpen(Run(NO_WORLD, es), p) && IsOpen(Run(NO_WORLD, es), p')
    ensures p == p'
  {
    RunKeepsInv(es);
  }

  /** Between ticks no row is left in checking or submitting. */
  lemma CompletedTickIsClean(es: seq<Event>, p: nat, k: nat)
    requires IsOpen(Run(NO_WORLD, es), p) && InstanceOf(Run(NO_WORLD, es), p).pc.Idle?
    requires k < |Run(NO_WORLD, es).table.jobs|
    ensures !Run(NO_WORLD, es).table.jobs[k].state.Checking?
    ensures !Run(NO_WORLD, es).table.jobs[k].state.Submitting?
  {
    RunKeepsInv(es);
  }

  /** Every row in a remote state has a task id, and polling never runs without one. */
  lemma RemoteStatesHaveTasks(es: seq<Event>)
    ensures forall k :: 0 <= k < |Run(NO_WORLD, es).table.jobs| && NeedsTask(Run(NO_WORLD, es).table.jobs[k].state) ==>
      Run(NO_WORLD, es).table.jobs[k].taskId.Some?
    ensures forall p :: IsOpen(Run(NO_WORLD, es), p) ==>
      var pc := InstanceOf(Run(NO_WORLD, es), p).pc; pc.AwaitShow? || pc.AwaitGet? ==> pc.task.Some?
  {
    RunKeepsInv(es);
  }
}
