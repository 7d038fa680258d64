/**
 When the state of a finished row is final: the two writers that overwrite one are a remote cancel that
 returns late and the row's own suspended tick.
 */
module QueueFinal {
  import opened Common
  import opened QueueModel
  import opened QueueRuns
  import opened QueueOrder
  import opened QueueCancel

  // ----- one step -----

  /** The replies after which a tick writes another state to its own row, when that was cancelled meanwhile. */
  predicate Overwrites(inst: Instance, e: Event) {
    match e
    case WorkflowDone(_, r) => inst.pc.AwaitWorkflow? && !r.SameDigest?
    case PreflightDone(_, _) => inst.pc.AwaitPreflight?
    case CrashBeforeSubmit(_) => inst.pc.AwaitPreflight? && !inst.closing
    case SubmitDone(_, _) => inst.pc.AwaitSubmit?
    case ShowDone(_, r) => inst.pc.AwaitShow? && !r.TaskCancelled? && !r.ShowError?
    case GetDone(_, r) => inst.pc.AwaitGet? && !r.GetError?
    case _ => false
  }

  /** The remote cancel of a job that was unfinished when it began returns when the row is finished otherwise. */
  predicate LateCancel(w: World, e: Event, k: nat)
    requires k < |w.table.jobs|
  {
    && e.CancelEnd? && e.ok && e.job == w.table.jobs[k].id && IsOpen(w, e.pid)
    && e.job in w.procs[e.pid].cancels && !w.table.jobs[k].state.Cancelled?
  }

  predicate OwnReply(w: World, e: Event, k: nat)
    requires k < |w.table.jobs|
  {
    IsOpen(w, e.pid) && Overwrites(InstanceOf(w, e.pid), e) && InstanceOf(w, e.pid).pc.id == w.table.jobs[k].id
  }

  lemma OwnRowStep(q: Queue, e: Event, k: nat)
    requires QueueOk(q) && k < |q.table.jobs| && Terminal(q.table.jobs[k].state) && !e.CrashBeforeSubmit?
    requires !q.inst.pc.Idle? && q.inst.pc.id == q.table.jobs[k].id
    ensures q.table.jobs[k].state.Cancelled? && |QueueStep(q, e).table.jobs| == |q.table.jobs|
    ensures QueueStep(q, e).table.jobs[k].state != q.table.jobs[k].state <==> Overwrites(q.inst, e)
  {
    assert PcJobOk(q.table.jobs[k], q.table.submits, q.inst.pc);
  }

  lemma QueueStepChanges(q: Queue, e: Event, k: nat)
    requires QueueOk(q) && k < |q.table.jobs| && Terminal(q.table.jobs[k].state) && !e.CrashBeforeSubmit?
    ensures |QueueStep(q, e).table.jobs| == |q.table.jobs|
    ensures QueueStep(q, e).table.jobs[k].state != q.table.jobs[k].state <==>
      Overwrites(q.inst, e) && q.inst.pc.id == q.table.jobs[k].id
  {
    if q.inst.pc.Idle? || q.inst.pc.id != q.table.jobs[k].id {
      QueueStepKeepsOthers(q, e, k);
    } else {
      OwnRowStep(q, e, k);
    }
  }

  lemma CancelEndChanges(w: World, e: Event, k: nat)
    requires k < |w.table.jobs| && e.CancelEnd?
    ensures k < |Next(w, e).table.jobs|
    ensures Next(w, e).table.jobs[k].state ==
      if LateCancel(w, e, k) then Cancelled else w.table.jobs[k].state
  {
  }

  lemma CrashChanges(w: World, e: Event, k: nat)
    requires k < |w.table.jobs| && e.CrashBeforeSubmit? && Terminal(w.table.jobs[k].state)
    ensures k < |Next(w, e).table.jobs|
    ensures Next(w, e).table.jobs[k].state != w.table.jobs[k].state <==> OwnReply(w, e, k)
  {
  }

  /** The steps that are neither a reply to a cancel nor one of a tick. */
  predicate Outside(e: Event) {
    e.Start? || e.Crash? || e.Open? || e.Add? || e.Retry? || e.CancelBegin? || e.CloseEnd?
  }

  lemma OtherStepKeeps(w: World, e: Event, k: nat)
    requires k < |w.table.jobs| && Terminal(w.table.jobs[k].state)
    requires !e.CancelEnd? && (Outside(e) || !IsOpen(w, e.pid)) && DistinctIds(w.table.jobs)
    ensures k < |Next(w, e).table.jobs| && Next(w, e).table.jobs[k].state == w.table.jobs[k].state
  {
  }

  /** A finished state changes exactly by a late remote cancel or by the reply to the row's own tick. */
  lemma FinishedStateChangesExactlyWhen(w: World, e: Event, k: nat)
    requires Inv(w) && k < |w.table.jobs| && Terminal(w.table.jobs[k].state)
    ensures k < |Next(w, e).table.jobs|
    ensures Next(w, e).table.jobs[k].state != w.table.jobs[k].state <==> LateCancel(w, e, k) || OwnReply(w, e, k)
    ensures LateCancel(w, e, k) ==> Next(w, e).table.jobs[k].state.Cancelled?
    ensures OwnReply(w, e, k) ==> w.table.jobs[k].state.Cancelled?
  {
    if e.CancelEnd? {
      CancelEndChanges(w, e, k);
    } else if e.CrashBeforeSubmit? {
      CrashChanges(w, e, k);
    } else if Outside(e) || !IsOpen(w, e.pid) {
      OtherStepKeeps(w, e, k);
    } else {
      QueueStepChanges(QueueOf(w, e.pid), e, k);
    }
    if OwnReply(w, e, k) {
      assert PcJobOk(w.table.jobs[k], w.table.submits, InstanceOf(w, e.pid).pc);
    }
  }

  // ----- every continuation -----

  /** Process p can still end a cancel of the job: it has the queue open, or can come to open it. */
  predicate CanEnd(w: World, p: nat, id: JobId) {
    p in w.procs && id in w.procs[p].cancels && (IsOpen(w, p) || w.owner != p)
  }

  ghost predicate Pending(w: World, id: JobId) {
    exists p :: CanEnd(w, p, id)
  }

  /** No tick and no cancel can overwrite the row any more. */
  ghost predicate Final(w: World, k: nat)
    requires k < |w.table.jobs|
  {
    var job := w.table.jobs[k];
    !InFlight(w, job.id) && (job.state.Cancelled? || !Pending(w, job.id))
  }

  lemma EndKeeps(w: World, e: Event, id: JobId, p: nat)
    requires Inv(w) && !Pending(w, id) && e.CancelEnd?
    ensures !CanEnd(Next(w, e), p, id)
  {
    assert !CanEnd(w, p, id);
  }

  lemma OpenKeeps(w: World, e: Event, id: JobId, p: nat)
    requires Inv(w) && !Pending(w, id) && (e.Open? || e.Start? || e.Crash?)
    ensures !CanEnd(Next(w, e), p, id)
  {
    assert !CanEnd(w, p, id);
  }

  lemma StepKeepsEnds(w: World, e: Event, k: nat, p: nat)
    requires Inv(w) && k < |w.table.jobs| && Terminal(w.table.jobs[k].state) && !Pending(w, w.table.jobs[k].id)
    ensures !CanEnd(Next(w, e), p, w.table.jobs[k].id)
  {
    var id := w.table.jobs[k].id;
    assert !CanEnd(w, p, id);
    if e.CancelEnd? {
      EndKeeps(w, e, id, p);
    } else if e.Open? || e.Start? || e.Crash? {
      OpenKeeps(w, e, id, p);
    }
  }

  lemma StaysFinal(w: World, e: Event, k: nat)
    requires Inv(w) && k < |w.table.jobs| && Terminal(w.table.jobs[k].state) && Final(w, k)
    ensures k < |Next(w, e).table.jobs| && Next(w, e).table.jobs[k].state == w.table.jobs[k].state
    ensures Inv(Next(w, e)) && Final(Next(w, e), k)
  {
    StaysFinished(w, e, k);
    FinishedStateChangesExactlyWhen(w, e, k);
    if LateCancel(w, e, k) {
      assert CanEnd(w, e.pid, w.table.jobs[k].id);
    }
    if !Pending(w, w.table.jobs[k].id) {
      forall p
        ensures !CanEnd(Next(w, e), p, w.table.jobs[k].id)
      {
        StepKeepsEnds(w, e, k, p);
      }
    }
  }

  lemma {:induction false} FinalForever(w: World, es: seq<Event>, k: nat)
    requires Inv(w) && k < |w.table.jobs| && Terminal(w.table.jobs[k].state) && Final(w, k)
    ensures k < |Run(w, es).table.jobs| && Run(w, es).table.jobs[k].state == w.table.jobs[k].state
    ensures Inv(Run(w, es)) && Final(Run(w, es), k)
  {
    if es != [] {
      var n := |es| - 1;
      FinalForever(w, es[..n], k);
      StaysFinal(Run(w, es[..n]), es[n], k);
    }
  }

  /** The reply that fails the tick of process p. */
  function FailingReply(p: nat, pc: Pc): Event
    requires !pc.Idle?
  {
    match pc
    case AwaitWorkflow(_) => WorkflowDone(p, OtherDigest)
    case AwaitPreflight(_) => PreflightDone(p, NotReady)
    case AwaitSubmit(_) => SubmitDone(p, SubmitError)
    case AwaitShow(_, _) => ShowDone(p, TaskFailed)
    case AwaitGet(_, _) => GetDone(p, OtherOutputs)
  }

  /** Row k has another state after these events. */
  ghost predicate Changes(w: World, es: seq<Event>, k: nat) {
    k < |w.table.jobs| && k < |Run(w, es).table.jobs| && Run(w, es).table.jobs[k].state != w.table.jobs[k].state
  }

  lemma TickOverwrites(w: World, k: nat) returns (es: seq<Event>)
    requires Inv(w) && k < |w.table.jobs| && Terminal(w.table.jobs[k].state) && InFlight(w, w.table.jobs[k].id)
    ensures Changes(w, es, k)
  {
    var p :| p in w.procs && w.procs[p].queue.Some? && !w.procs[p].queue.value.pc.Idle?
          && w.procs[p].queue.value.pc.id == w.table.jobs[k].id;
    var e := FailingReply(p, InstanceOf(w, p).pc);
    FinishedStateChangesExactlyWhen(w, e, k);
    RunSnoc(w, [], e);
    es := [] + [e];
  }

  /** The owner dies, p opens the queue, and the remote cancel of p returns. */
  lemma OpensLater(w: World, p: nat)
    requires Inv(w) && p in w.procs && !IsOpen(w, p) && w.owner != p
    ensures
      var w' := Next(Next(w, Crash(w.owner)), Open(p, false));
      && IsOpen(w', p) && w'.procs[p].cancels == w.procs[p].cancels
      && w'.table.jobs == Recover(w.table.jobs)
  {
  }

  lemma CancelOverwrites(w: World, p: nat, k: nat) returns (es: seq<Event>)
    requires Inv(w) && k < |w.table.jobs| && Terminal(w.table.jobs[k].state) && !w.table.jobs[k].state.Cancelled?
    requires CanEnd(w, p, w.table.jobs[k].id)
    ensures Changes(w, es, k)
  {
    var e := CancelEnd(p, w.table.jobs[k].id, true);
    var before: seq<Event> := [];
    if !IsOpen(w, p) {
      OpensLater(w, p);
      RunSnoc(w, [], Crash(w.owner));
      RunSnoc(w, [] + [Crash(w.owner)], Open(p, false));
      before := [] + [Crash(w.owner)] + [Open(p, false)];
    }
    CancelEndChanges(Run(w, before), e, k);
    RunSnoc(w, before, e);
    es := before + [e];
  }

  /**
   A finished row keeps its state in every continuation, exactly when no tick has it suspended and it is cancelled
   already or no process can still end a cancel of it.
   */
  lemma FinalExactlyWhen(w: World, k: nat)
    requires Inv(w) && k < |w.table.jobs| && Terminal(w.table.jobs[k].state)
    ensures (forall es :: !Changes(w, es, k)) <==> Final(w, k)
  {
    if Final(w, k) {
      forall es
        ensures !Changes(w, es, k)
      {
        FinalForever(w, es, k);
      }
    } else if InFlight(w, w.table.jobs[k].id) {
      var es := TickOverwrites(w, k);
    } else {
      var p :| CanEnd(w, p, w.table.jobs[k].id);
      var es := CancelOverwrites(w, p, k);
    }
  }

  // ----- a run in which a success is overwritten -----

  /** A cancel is begun, and its remote call is still out when the poll finds the task done and the video is fetched. */
  function FetchedRun(a: Request): seq<Event> {
    SubmittedRun(a) + [CancelBegin(1, 0)] + [Tick(1, false)] + [ShowDone(1, TaskSucceeded)] + [GetDone(1, OneVideo)]
  }

  function CancellingWorld(job: Job, pc: Pc): World {
    World(Table([job], ["A"]), 1, map[1 := Process(Some(Instance(false, pc)), multiset{"A"})])
  }

  function SubmittedJob(a: Request): Job {
    NewJob("A", Sha256(a), a, 10).(state := Submitted, taskId := Some("tsk_1"))
  }

  lemma CancelBegun(a: Request)
    requires !a.pinned
    ensures Run(NO_WORLD, SubmittedRun(a) + [CancelBegin(1, 0)]) == CancellingWorld(SubmittedJob(a), Idle)
  {
    SubmittedWorld(a);
    RunSnoc(NO_WORLD, SubmittedRun(a), CancelBegin(1, 0));
    assert multiset{} + multiset{"A"} == multiset{"A"};
    var w := Run(NO_WORLD, SubmittedRun(a) + [CancelBegin(1, 0)]);
    assert w.procs == CancellingWorld(SubmittedJob(a), Idle).procs;
  }

  lemma CancellingStep(job: Job, pc: Pc, e: Event, job': Job, pc': Pc)
    requires e == Tick(1, false) || e == ShowDone(1, TaskSucceeded) || e == GetDone(1, OneVideo)
    requires QueueStep(Single(job, ["A"], pc), e) == Single(job', ["A"], pc')
    ensures Next(CancellingWorld(job, pc), e) == CancellingWorld(job', pc')
  {
  }

  lemma PollsRow(job: Job)
    requires job.state.Submitted?
    ensures TickStart(Single(job, ["A"], Idle), false) == Single(job, ["A"], AwaitShow(job.id, job.taskId))
  {
    assert IsHead([job], 0);
    HeadUnique([job], 0, Head([job]).value);
  }

  lemma PolledWorld(a: Request)
    requires !a.pinned
    ensures
      var job := SubmittedJob(a);
      Run(NO_WORLD, SubmittedRun(a) + [CancelBegin(1, 0)] + [Tick(1, false)])
        == CancellingWorld(job, AwaitShow("A", job.taskId))
  {
    var job := SubmittedJob(a);
    CancelBegun(a);
    RunSnoc(NO_WORLD, SubmittedRun(a) + [CancelBegin(1, 0)], Tick(1, false));
    PollsRow(job);
    CancellingStep(job, Idle, Tick(1, false), job, AwaitShow("A", job.taskId));
  }

  lemma Fetches(job: Job)
    requires job.id == "A"
    ensures
      var loading := job.(state := Downloading);
      && Next(CancellingWorld(job, AwaitShow("A", job.taskId)), ShowDone(1, TaskSucceeded))
           == CancellingWorld(loading, AwaitGet("A", job.taskId))
      && Next(CancellingWorld(loading, AwaitGet("A", job.taskId)), GetDone(1, OneVideo))
           == CancellingWorld(job.(state := Succeeded), Idle)
  {
    var loading := job.(state := Downloading);
    assert SetState([job], "A", Downloading) == [loading];
    CancellingStep(job, AwaitShow("A", job.taskId), ShowDone(1, TaskSucceeded), loading, AwaitGet("A", job.taskId));
    assert SetState([loading], "A", Succeeded) == [job.(state := Succeeded)];
    CancellingStep(loading, AwaitGet("A", job.taskId), GetDone(1, OneVideo), job.(state := Succeeded), Idle);
  }

  lemma FetchedWorld(a: Request)
    requires !a.pinned
    ensures Run(NO_WORLD, FetchedRun(a)) == CancellingWorld(SubmittedJob(a).(state := Succeeded), Idle)
  {
    var polled := SubmittedRun(a) + [CancelBegin(1, 0)] + [Tick(1, false)];
    PolledWorld(a);
    Fetches(SubmittedJob(a));
    RunSnoc(NO_WORLD, polled, ShowDone(1, TaskSucceeded));
    RunSnoc(NO_WORLD, polled + [ShowDone(1, TaskSucceeded)], GetDone(1, OneVideo));
  }

  /** A video that was fetched is marked cancelled when the remote cancel returns after it. */
  lemma SuccessIsOverwritten(a: Request)
    requires !a.pinned
    ensures
      var w := Run(NO_WORLD, FetchedRun(a));
      |w.table.jobs| == 1 && w.table.jobs[0].state.Succeeded?
    ensures
      var w := Run(NO_WORLD, FetchedRun(a) + [CancelEnd(1, "A", true)]);
      |w.table.jobs| == 1 && w.table.jobs[0].state.Cancelled?
  {
    FetchedWorld(a);
    RunSnoc(NO_WORLD, FetchedRun(a), CancelEnd(1, "A", true));
    CancelEndChanges(Run(NO_WORLD, FetchedRun(a)), CancelEnd(1, "A", true), 0);
  }
}
