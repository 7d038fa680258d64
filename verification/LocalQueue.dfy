/**
 The LocalQueue object and the two writers of vgenRecovery.ts, imperatively.  The jobs table is the
 sequence `jobs`, in insertion order; a suspended tick is remembered in `pc`, so that `busy` is
 `pc != Idle`.

 Every method is a step of a run: `Valid` says that the object is what the run `trace` of all processes
 left, so that what holds in every run holds of the object.
 */
module LocalQueues {
  import opened Common
  import opened QueueModel
  import opened QueueRuns

  /** The steps of an open queue that its own tick takes. */
  predicate TickEvent(e: Event) {
    e.Tick? || e.WorkflowDone? || e.PreflightDone? || e.SubmitDone? || e.ShowDone? || e.GetDone? || e.CloseBegin?
  }

  lemma TickEventStep(w: World, e: Event)
    requires !e.Start? && IsOpen(w, e.pid) && TickEvent(e)
    ensures IsOpen(Next(w, e), e.pid) && QueueOf(Next(w, e), e.pid) == QueueStep(QueueOf(w, e.pid), e)
    ensures Next(w, e).owner == w.owner
  {
  }

  /** While a process has the queue open, no other process changes the table, the owner or its instance. */
  lemma OtherKeeps(w: World, p: nat, e: Event)
    requires Inv(w) && IsOpen(w, p) && e.pid != p
    ensures Next(w, e).table == w.table && Next(w, e).owner == w.owner
    ensures IsOpen(Next(w, e), p) && InstanceOf(Next(w, e), p) == InstanceOf(w, p)
  {
  }

  lemma {:induction false} OthersKeep(trace: seq<Event>, p: nat, others: seq<Event>)
    requires IsOpen(Run(NO_WORLD, trace), p) && forall n :: 0 <= n < |others| ==> others[n].pid != p
    ensures
      var w, w' := Run(NO_WORLD, trace), Run(NO_WORLD, trace + others);
      && w'.table == w.table && w'.owner == w.owner
      && IsOpen(w', p) && InstanceOf(w', p) == InstanceOf(w, p)
  {
    if others == [] {
      assert trace + others == trace;
    } else {
      var n := |others| - 1;
      OthersKeep(trace, p, others[..n]);
      assert (trace + others)[..|trace + others| - 1] == trace + others[..n];
      RunKeepsInv(trace + others[..n]);
      OtherKeeps(Run(NO_WORLD, trace + others[..n]), p, others[n]);
    }
  }

  /** No row but the one with this id differs. */
  ghost predicate OnlyRow(jobs: seq<Job>, jobs': seq<Job>, id: JobId) {
    |jobs'| == |jobs| && forall k :: 0 <= k < |jobs| && jobs[k].id != id ==> jobs'[k] == jobs[k]
  }

  /** The row with this id holds the state now, and no other column or row differs. */
  ghost predicate NowHolds(jobs: seq<Job>, jobs': seq<Job>, id: JobId, s: JobState) {
    && OnlyRow(jobs, jobs', id)
    && forall k :: 0 <= k < |jobs| && jobs[k].id == id ==> jobs'[k] == jobs[k].(state := s)
  }

  /** One row is appended: queued, without a task, under a new request id, with the old digest. */
  ghost predicate Retried(jobs: seq<Job>, jobs': seq<Job>, k: nat, id: JobId, suffix: string, now: int)
    requires k < |jobs|
  {
    var request := jobs[k].request.(requestId := jobs[k].request.requestId + ":retry:" + suffix);
    jobs' == jobs + [Job(id, jobs[k].digest, request, Queued, None, now)]
  }

  class LocalQueue {
    var jobs: seq<Job>
    var closing: bool
    var pc: Pc
    /** The pid in the owner table, and this process's own. */
    var owner: nat
    const pid: nat
    /** What all processes did so far, and what that left. */
    ghost var trace: seq<Event>
    ghost var world: World

    ghost function View(): Queue
      reads this
    {
      Queue(Table(jobs, world.table.submits), Instance(closing, pc))
    }

    ghost predicate Valid()
      reads this
    {
      && world == Run(NO_WORLD, trace) && owner == world.owner
      && IsOpen(world, pid) && QueueOf(world, pid) == View()
    }

    /** What the caller of the object can rely on after any method. */
    ghost predicate Promises()
      reads this
    {
      && NoDup(world.table.submits)
      && (pc.Idle? ==> forall k :: 0 <= k < |jobs| ==> !jobs[k].state.Checking? && !jobs[k].state.Submitting?)
      && (forall k :: 0 <= k < |jobs| && NeedsTask(jobs[k].state) ==> jobs[k].taskId.Some?)
      && (pc.AwaitShow? || pc.AwaitGet? ==> pc.task.Some?)
    }

    lemma ValidPromises()
      requires Valid()
      ensures Promises() && QueueOk(View())
    {
      RunKeepsInv(trace);
      assert InstanceOk(world.table, pc);
    }

    ghost method Step(e: Event)
      requires world == Run(NO_WORLD, trace)
      modifies this`world, this`trace
      ensures world == Next(old(world), e) && trace == old(trace) + [e]
      ensures world == Run(NO_WORLD, trace)
    {
      assert (trace + [e])[..|trace|] == trace;
      world, trace := Next(world, e), trace + [e];
    }

    /** A tick's own step. */
    ghost method TickStep(e: Event)
      requires Valid() && e.pid == pid && TickEvent(e)
      modifies this`world, this`trace
      ensures trace == old(trace) + [e] && world == Run(NO_WORLD, trace) && owner == world.owner
      ensures IsOpen(world, pid) && QueueOf(world, pid) == old(QueueStep(View(), e))
    {
      TickEventStep(world, e);
      Step(e);
    }

    /** The constructor, on the table a run left whose owner is not alive. */
    constructor (stored: seq<Job>, pid: nat, ghost before: seq<Event>)
      requires
        var w := Run(NO_WORLD, before);
        pid in w.procs && !IsOpen(w, pid) && (w.owner == 0 || w.owner !in w.procs) && stored == w.table.jobs
      ensures this.pid == pid && Valid() && Promises() && trace == before + [QueueRuns.Open(pid, false)]
    {
      closing, pc := false, Idle;
      this.pid, owner := pid, pid;
      jobs := Recover(stored);
      trace, world := before, Run(NO_WORLD, before);
      new;
      Step(QueueRuns.Open(pid, false));
      ValidPromises();
    }

    /**
     Opens the table left by an earlier process unless the recorded owner is alive, among the processes of
     the run or as some other process that took its pid.
     */
    static method Open(stored: seq<Job>, recorded: nat, alive: bool, pid: nat, ghost before: seq<Event>)
      returns (q: LocalQueue?)
      requires
        var w := Run(NO_WORLD, before);
        && pid in w.procs && !IsOpen(w, pid) && stored == w.table.jobs
        && recorded == w.owner && (recorded in w.procs ==> alive)
      ensures q != null ==> fresh(q) && q.pid == pid && q.Valid() && q.Promises()
      ensures q != null ==> q.trace == before + [QueueRuns.Open(pid, false)]
      ensures q == null ==> Run(NO_WORLD, before + [QueueRuns.Open(pid, alive)]) == Run(NO_WORLD, before)
      ensures q == null <==> recorded != 0 && alive
    {
      assert (before + [QueueRuns.Open(pid, alive)])[..|before|] == before;
      if recorded != 0 && alive {
        return null;
      }
      q := new LocalQueue(stored, pid, before);
    }

    /**
     Between two calls other processes start, die, fail to open the table or answer their own cancels; the object
     then sees the table as `stored`.  Whatever they did, the owner and the suspended tick are still this one's.
     */
    method OthersRan(stored: seq<Job>, ghost others: seq<Event>)
      requires Valid() && (forall n :: 0 <= n < |others| ==> others[n].pid != pid)
      requires stored == Run(NO_WORLD, trace + others).table.jobs
      modifies this`jobs, this`world, this`trace
      ensures Valid() && Promises() && trace == old(trace) + others && jobs == old(jobs)
      ensures world.table.submits == old(world).table.submits
    {
      OthersKeep(trace, pid, others);
      trace := trace + others;
      world := Run(NO_WORLD, trace);
      jobs := stored;
      ValidPromises();
    }

    /** rows().find(not terminal): the index of the row, or -1. */
    method FindHead() returns (h: int)
      ensures h == -1 <==> Head(jobs).None?
      ensures h != -1 ==> Head(jobs) == Some(h)
    {
      h := -1;
      for k := 0 to |jobs|
        invariant -1 <= h < k
        invariant h == -1 ==> forall i :: 0 <= i < k ==> Terminal(jobs[i].state)
        invariant h != -1 ==> !Terminal(jobs[h].state)
        invariant h != -1 ==> forall i :: 0 <= i < k && i != h && !Terminal(jobs[i].state) ==> Before(jobs, h, i)
      {
        if !Terminal(jobs[k].state) && (h == -1 || jobs[k].created < jobs[h].created) {
          h := k;
        }
      }
      if h != -1 {
        assert IsHead(jobs, h);
        HeadUnique(jobs, h, Head(jobs).value);
      }
    }

    /** tick, up to its first await.  `argsFail` says whether writing the input files throws. */
    method Tick(argsFail: bool)
      requires Valid()
      modifies this`jobs, this`pc, this`world, this`trace
      ensures Valid() && Promises() && trace == old(trace) + [QueueRuns.Tick(pid, argsFail)]
      ensures old(pc) != Idle || closing || NoHead(old(jobs)) ==> jobs == old(jobs) && pc == old(pc)
      ensures old(pc) == Idle && !closing ==> forall h: nat :: IsHead(old(jobs), h) ==>
        var row := old(jobs)[h];
        if !row.state.Queued? then jobs == old(jobs) && pc == AwaitShow(row.id, row.taskId)
        else if argsFail then NowHolds(old(jobs), jobs, row.id, Failed) && pc == Idle
        else
          && NowHolds(old(jobs), jobs, row.id, Checking)
          && pc == if row.request.pinned then AwaitWorkflow(row.id) else AwaitPreflight(row.id)
    {
      ValidPromises();
      HeadsUnique(jobs);
      TickStep(QueueRuns.Tick(pid, argsFail));
      BeginTick(argsFail);
      ValidPromises();
    }

    method BeginTick(argsFail: bool)
      modifies this`jobs, this`pc
      ensures View() == old(TickStart(View(), argsFail))
    {
      if pc != Idle || closing {
        return;
      }
      var h := FindHead();
      if h == -1 {
        return;
      }
      var row := jobs[h];
      if row.state == Queued {
        jobs := SetState(jobs, row.id, Checking);
        if argsFail {
          jobs := OnError(jobs, row.id);
        } else if row.request.pinned {
          pc := AwaitWorkflow(row.id);
        } else {
          pc := AwaitPreflight(row.id);
        }
      } else {
        pc := AwaitShow(row.id, row.taskId);
      }
    }

    /** The tick resumes with the reply of `workflow show`. */
    method WorkflowReplied(r: WorkflowReply)
      requires Valid() && pc.AwaitWorkflow?
      modifies this`jobs, this`pc, this`world, this`trace
      ensures Valid() && Promises() && trace == old(trace) + [WorkflowDone(pid, r)]
      ensures r.SameDigest? ==> jobs == old(jobs) && pc == AwaitPreflight(old(pc.id))
      ensures !r.SameDigest? ==> NowHolds(old(jobs), jobs, old(pc.id), Failed) && pc.Idle?
    {
      ValidPromises();
      TickStep(WorkflowDone(pid, r));
      match r {
        case SameDigest => pc := AwaitPreflight(pc.id);
        case OtherDigest => jobs, pc := SetState(jobs, pc.id, Failed), Idle;
        case WorkflowError => jobs, pc := OnError(jobs, pc.id), Idle;
      }
      ValidPromises();
    }

    /** The tick resumes with the reply of `preflight`; only here is a submit command started. */
    method PreflightReplied(r: PreflightReply) returns (submitted: bool)
      requires Valid() && pc.AwaitPreflight?
      modifies this`jobs, this`pc, this`world, this`trace
      ensures Valid() && Promises() && trace == old(trace) + [PreflightDone(pid, r)]
      ensures submitted <==> r.Ready? && !closing
      ensures submitted ==> NowHolds(old(jobs), jobs, old(pc.id), Submitting) && pc == AwaitSubmit(old(pc.id))
      ensures !submitted ==> pc.Idle? && NowHolds(old(jobs), jobs, old(pc.id), if r.Ready? then Queued else Failed)
      ensures submitted ==> world.table.submits == old(world.table.submits) + [old(pc.id)]
      ensures submitted ==> old(pc.id) !in old(world.table.submits)
      ensures !submitted ==> world.table.submits == old(world.table.submits)
    {
      ValidPromises();
      TickStep(PreflightDone(pid, r));
      submitted := false;
      if r == PreflightError {
        jobs, pc := OnError(jobs, pc.id), Idle;
      } else if r == NotReady {
        jobs, pc := SetState(jobs, pc.id, Failed), Idle;
      } else if closing {
        jobs, pc := SetState(jobs, pc.id, Queued), Idle;
      } else {
        jobs := SetState(jobs, pc.id, Submitting);
        submitted := true;
        pc := AwaitSubmit(pc.id);
      }
      ValidPromises();
    }

    /** The tick resumes with the reply of `submit`. */
    method SubmitReplied(r: SubmitReply)
      requires Valid() && pc.AwaitSubmit?
      modifies this`jobs, this`pc, this`world, this`trace
      ensures Valid() && Promises() && pc.Idle? && trace == old(trace) + [SubmitDone(pid, r)]
      ensures OnlyRow(old(jobs), jobs, old(pc.id))
      ensures forall k :: 0 <= k < |jobs| && jobs[k].id == old(pc.id) ==>
        jobs[k] == match r
          case TaskCreated(task) => old(jobs)[k].(state := Submitted, taskId := Some(task))
          case SubmitError =>
            old(jobs)[k].(state := if old(jobs)[k].state.Submitting? then NeedsAttention else Failed)
    {
      ValidPromises();
      TickStep(SubmitDone(pid, r));
      match r {
        case TaskCreated(task) => jobs, pc := SetSubmitted(jobs, pc.id, task), Idle;
        case SubmitError => jobs, pc := OnError(jobs, pc.id), Idle;
      }
      ValidPromises();
    }

    /** The tick resumes with the reply of `show`. */
    method ShowReplied(r: ShowReply)
      requires Valid() && pc.AwaitShow?
      modifies this`jobs, this`pc, this`world, this`trace
      ensures Valid() && Promises() && trace == old(trace) + [ShowDone(pid, r)]
      ensures pc == if r.TaskSucceeded? then AwaitGet(old(pc.id), old(pc.task)) else Idle
      ensures r.TaskFailed? ==> NowHolds(old(jobs), jobs, old(pc.id), Failed)
      ensures r.TaskCancelled? ==> NowHolds(old(jobs), jobs, old(pc.id), Cancelled)
      ensures r.TaskSucceeded? ==> NowHolds(old(jobs), jobs, old(pc.id), Downloading)
      ensures r.TaskOther? ==> NowHolds(old(jobs), jobs, old(pc.id), Running)
      ensures r.ShowError? ==> jobs == old(jobs)
    {
      ValidPromises();
      TickStep(ShowDone(pid, r));
      match r {
        case TaskFailed => jobs, pc := SetState(jobs, pc.id, Failed), Idle;
        case TaskCancelled => jobs, pc := SetState(jobs, pc.id, Cancelled), Idle;
        case TaskSucceeded => jobs, pc := SetState(jobs, pc.id, Downloading), AwaitGet(pc.id, pc.task);
        case TaskOther => jobs, pc := SetState(jobs, pc.id, Running), Idle;
        case ShowError => jobs, pc := OnError(jobs, pc.id), Idle;
      }
      ValidPromises();
    }

    /** The tick resumes with the downloaded outputs. */
    method GetReplied(r: GetReply)
      requires Valid() && pc.AwaitGet?
      modifies this`jobs, this`pc, this`world, this`trace
      ensures Valid() && Promises() && pc.Idle? && trace == old(trace) + [GetDone(pid, r)]
      ensures r.OneVideo? ==> NowHolds(old(jobs), jobs, old(pc.id), Succeeded)
      ensures r.OtherOutputs? ==> NowHolds(old(jobs), jobs, old(pc.id), Failed)
      ensures r.GetError? ==> jobs == old(jobs)
    {
      ValidPromises();
      TickStep(GetDone(pid, r));
      match r {
        case OneVideo => jobs, pc := SetState(jobs, pc.id, Succeeded), Idle;
        case OtherOutputs => jobs, pc := SetState(jobs, pc.id, Failed), Idle;
        case GetError => jobs, pc := OnError(jobs, pc.id), Idle;
      }
      ValidPromises();
    }

    /** add, for an already normalised request. */
    method Add(request: Request, id: JobId, now: int) returns (a: AddOutcome)
      requires Valid()
      modifies this`jobs, this`world, this`trace
      ensures Valid() && Promises() && trace == old(trace) + [QueueRuns.Add(pid, request, id, now)]
      ensures jobs == old(jobs) + if a.Inserted? then [Job(id, Sha256(request), request, Queued, None, now)] else []
      ensures AddAnswers(old(jobs), request, id, a)
    {
      a := AddRow(request, id, now);
      Step(QueueRuns.Add(pid, request, id, now));
      ValidPromises();
    }

    method AddRow(request: Request, id: JobId, now: int) returns (a: AddOutcome)
      modifies this`jobs
      ensures jobs == old(AddJob(jobs, request, id, now))
      ensures AddAnswers(old(jobs), request, id, a)
    {
      var open, idTaken := 0, false;
      for k := 0 to |jobs|
        invariant forall i :: 0 <= i < k ==> jobs[i].request.requestId != request.requestId
        invariant open == Unfinished(jobs[..k])
        invariant idTaken <==> exists i :: 0 <= i < k && jobs[i].id == id
        invariant jobs == old(jobs)
      {
        if jobs[k].request.requestId == request.requestId {
          return if jobs[k].digest == Sha256(request) then Known(k) else OtherContent;
        }
        assert jobs[..k + 1][..k] == jobs[..k];
        open := open + if Terminal(jobs[k].state) then 0 else 1;
        idTaken := idTaken || jobs[k].id == id;
      }
      assert jobs[..|jobs|] == jobs;
      if open >= MAX_OPEN_JOBS {
        return Full;
      }
      if idTaken {
        return KeyTaken;
      }
      jobs := jobs + [NewJob(id, Sha256(request), request, now)];
      return Inserted;
    }

    /** The row a video's cancel or retry works on: its first by creation stamp, or -1. */
    method FindVideo(video: int) returns (k: int)
      ensures k == -1 ==> forall i :: 0 <= i < |jobs| ==> jobs[i].request.videoId != Some(video)
      ensures k != -1 ==> k >= 0 && IsForVideo(jobs, video, k)
    {
      k := -1;
      for n := 0 to |jobs|
        invariant -1 <= k < n
        invariant k == -1 ==> forall i :: 0 <= i < n ==> jobs[i].request.videoId != Some(video)
        invariant k != -1 ==> jobs[k].request.videoId == Some(video)
        invariant k != -1 ==>
          forall i :: 0 <= i < n && i != k && jobs[i].request.videoId == Some(video) ==> Before(jobs, k, i)
      {
        if jobs[n].request.videoId == Some(video) && (k == -1 || jobs[n].created < jobs[k].created) {
          k := n;
        }
      }
    }

    /** retryVgenVideo: the found row is retried as one step of the run. */
    method RetryVideo(video: int, id: JobId, suffix: string, now: int) returns (ok: bool)
      requires Valid()
      modifies this`jobs, this`world, this`trace
      ensures Valid() && Promises()
      ensures ok ==> exists k: nat ::
        && IsForVideo(old(jobs), video, k) && (old(jobs)[k].state.Failed? || old(jobs)[k].state.Cancelled?)
        && Retried(old(jobs), jobs, k, id, suffix, now)
        && trace == old(trace) + [Retry(pid, k, id, suffix, now)]
      ensures !ok ==> jobs == old(jobs) && trace == old(trace)
      ensures !ok ==> forall k: nat :: IsForVideo(jobs, video, k) ==> RetryJob(jobs, k, id, suffix, now) == jobs
    {
      ValidPromises();
      var k := FindVideo(video);
      if k == -1 {
        return false;
      }
      forall k': nat | IsForVideo(jobs, video, k')
        ensures k' == k
      {
        ForVideoUnique(jobs, video, k, k');
      }
      ok := RetryRow(k, id, suffix, now);
      if ok {
        Step(Retry(pid, k, id, suffix, now));
      }
      ValidPromises();
    }

    method RetryRow(k: nat, id: JobId, suffix: string, now: int) returns (ok: bool)
      requires k < |jobs|
      modifies this`jobs
      ensures jobs == old(RetryJob(jobs, k, id, suffix, now))
      ensures ok <==> |jobs| == |old(jobs)| + 1
      ensures !ok ==> jobs == old(jobs)
    {
      if jobs[k].state != Failed && jobs[k].state != Cancelled {
        return false;
      }
      var request := RetryRequest(jobs[k].request, suffix);
      for n := 0 to |jobs|
        invariant jobs == old(jobs)
        invariant forall i :: 0 <= i < n ==> jobs[i].id != id && jobs[i].request.requestId != request.requestId
      {
        if jobs[n].id == id || jobs[n].request.requestId == request.requestId {
          return false;
        }
      }
      jobs := jobs + [NewJob(id, jobs[k].digest, request, now)];
      return true;
    }

    /**
     cancelVgenVideo up to its await: a row without a task id is cancelled at once; for a row with
     one, the remote cancel is started and `CancelReplied` follows.
     */
    method CancelVideo(video: int) returns (ok: bool, waiting: Option<JobId>)
      requires Valid()
      modifies this`jobs, this`world, this`trace
      ensures Valid() && Promises()
      ensures !ok ==> jobs == old(jobs) && waiting.None? && trace == old(trace)
      ensures !ok ==> forall k: nat :: IsForVideo(jobs, video, k) ==> Terminal(jobs[k].state)
      ensures ok ==> exists k: nat ::
        && IsForVideo(old(jobs), video, k) && !Terminal(old(jobs)[k].state)
        && trace == old(trace) + [CancelBegin(pid, k)]
        && waiting == (if old(jobs)[k].taskId.None? then None else Some(old(jobs)[k].id))
        && if waiting.Some? then jobs == old(jobs) else NowHolds(old(jobs), jobs, old(jobs)[k].id, Cancelled)
      ensures waiting.Some? ==> waiting.value in world.procs[pid].cancels
    {
      ValidPromises();
      var k := FindVideo(video);
      if k == -1 {
        return false, None;
      }
      var id := jobs[k].id;
      if Terminal(jobs[k].state) {
        forall k': nat | IsForVideo(jobs, video, k')
          ensures k' == k
        {
          ForVideoUnique(jobs, video, k, k');
        }
        return false, None;
      }
      ok := true;
      Step(CancelBegin(pid, k));
      if jobs[k].taskId.Some? {
        waiting := Some(id);
      } else {
        jobs, waiting := SetState(jobs, id, Cancelled), None;
      }
      ValidPromises();
    }

    /** The cancel resumes after the remote cancel answered: the row is overwritten whatever it holds by now. */
    method CancelReplied(id: JobId, ok: bool)
      requires Valid() && id in world.procs[pid].cancels
      modifies this`jobs, this`world, this`trace
      ensures Valid() && Promises() && trace == old(trace) + [CancelEnd(pid, id, ok)]
      ensures ok ==> NowHolds(old(jobs), jobs, id, Cancelled)
      ensures !ok ==> jobs == old(jobs)
    {
      Step(CancelEnd(pid, id, ok));
      if ok {
        jobs := SetState(jobs, id, Cancelled);
      }
      ValidPromises();
    }

    /** close, before it waits for the running tick. */
    method Close()
      requires Valid()
      modifies this`closing, this`world, this`trace
      ensures Valid() && Promises() && trace == old(trace) + [CloseBegin(pid)]
    {
      TickStep(CloseBegin(pid));
      closing := true;
      ValidPromises();
    }

    /** close, once the running tick has ended: the owner row is cleared, and another process may open the table. */
    method Release()
      requires Valid() && closing && pc == Idle
      modifies this`owner, this`world, this`trace
      ensures world == Run(NO_WORLD, trace) && trace == old(trace) + [CloseEnd(pid)]
      ensures owner == world.owner == 0 && !IsOpen(world, pid) && world.table.jobs == jobs
    {
      RunKeepsInv(trace);
      Step(CloseEnd(pid));
      if owner == pid {
        owner := 0;
      }
    }
  }

  lemma HeadsUnique(jobs: seq<Job>)
    ensures forall h: nat :: IsHead(jobs, h) ==> Head(jobs) == Some(h)
  {
    forall h: nat | IsHead(jobs, h)
      ensures Head(jobs) == Some(h)
    {
      HeadUnique(jobs, h, Head(jobs).value);
    }
  }

  lemma ForVideoUnique(jobs: seq<Job>, video: int, k: nat, k': nat)
    requires IsForVideo(jobs, video, k) && IsForVideo(jobs, video, k')
    ensures k == k'
  {
  }
}
