/**
 Which events write which state to which row of the Toonflow queue, over every step and every run.
 */
module QueueStates {
  import opened Common
  import opened QueueModel
  import opened QueueRuns
  import opened QueueOrder

  // ----- what an event is to a row -----

  /** Process p has a tick suspended on row k. */
  predicate OwnTick(w: World, p: nat, k: nat) {
    k < |w.table.jobs| && IsOpen(w, p) && !InstanceOf(w, p).pc.Idle? && InstanceOf(w, p).pc.id == w.table.jobs[k].id
  }

  /** The event answers the call at which the tick is suspended. */
  predicate Answers(pc: Pc, e: Event) {
    match e
    case WorkflowDone(_, _) => pc.AwaitWorkflow?
    case PreflightDone(_, _) => pc.AwaitPreflight?
    case SubmitDone(_, _) => pc.AwaitSubmit?
    case ShowDone(_, _) => pc.AwaitShow?
    case GetDone(_, _) => pc.AwaitGet?
    case _ => false
  }

  predicate Replies(w: World, e: Event, k: nat) {
    OwnTick(w, e.pid, k) && Answers(InstanceOf(w, e.pid).pc, e)
  }

  /** The call failed: the command line threw, or answered with something unusable. */
  predicate IsError(e: Event) {
    match e
    case WorkflowDone(_, r) => r.WorkflowError?
    case PreflightDone(_, r) => r.PreflightError?
    case SubmitDone(_, r) => r.SubmitError?
    case ShowDone(_, r) => r.ShowError?
    case GetDone(_, r) => r.GetError?
    case _ => false
  }

  /** The answer ends the job: another workflow digest, no readiness, a failed task, or not one video. */
  predicate IsRefusal(e: Event) {
    match e
    case WorkflowDone(_, r) => r.OtherDigest?
    case PreflightDone(_, r) => r.NotReady?
    case ShowDone(_, r) => r.TaskFailed?
    case GetDone(_, r) => r.OtherOutputs?
    case _ => false
  }

  /** A tick begins, and row k is the one it works on. */
  ghost predicate Begins(w: World, e: Event, k: nat) {
    && e.Tick? && IsOpen(w, e.pid) && InstanceOf(w, e.pid).pc.Idle? && !InstanceOf(w, e.pid).closing
    && IsHead(w.table.jobs, k)
  }

  /** A process opens the queue: nobody is recorded, or whoever is recorded is gone. */
  predicate Opens(w: World, e: Event) {
    && e.Open? && e.pid in w.procs && !IsOpen(w, e.pid)
    && (w.owner == 0 || (w.owner !in w.procs && !e.otherAlive))
  }

  /** The second half of a cancel succeeds. */
  predicate CancelReturns(w: World, e: Event, k: nat) {
    && k < |w.table.jobs| && e.CancelEnd? && e.ok && IsOpen(w, e.pid)
    && e.job == w.table.jobs[k].id && e.job in w.procs[e.pid].cancels
  }

  /** Why row k comes to hold state s. */
  ghost predicate Because(w: World, e: Event, k: nat, s: JobState)
    requires k < |w.table.jobs|
  {
    var job := w.table.jobs[k];
    match s
    case Succeeded => Replies(w, e, k) && e == GetDone(e.pid, OneVideo)
    case Failed =>
      || (Replies(w, e, k) && IsRefusal(e))
      || (Replies(w, e, k) && IsError(e) && job.taskId.None? && !job.state.Submitting?)
      || (Begins(w, e, k) && job.state.Queued? && e.argsFail)
    case NeedsAttention =>
      job.state.Submitting? && ((Replies(w, e, k) && IsError(e)) || Opens(w, e))
    case Cancelled =>
      || CancelReturns(w, e, k)
      || (e.CancelBegin? && IsOpen(w, e.pid) && e.row == k && !Terminal(job.state) && job.taskId.None?)
      || (Replies(w, e, k) && e == ShowDone(e.pid, TaskCancelled))
    case Queued =>
      || (Replies(w, e, k) && e == PreflightDone(e.pid, Ready) && InstanceOf(w, e.pid).closing)
      || (Opens(w, e) && job.state.Checking?)
    case Checking => Begins(w, e, k) && job.state.Queued? && !e.argsFail
    case Submitting =>
      && OwnTick(w, e.pid, k) && InstanceOf(w, e.pid).pc.AwaitPreflight? && !InstanceOf(w, e.pid).closing
      && (e == PreflightDone(e.pid, Ready) || e.CrashBeforeSubmit?)
    case Submitted => Replies(w, e, k) && e.SubmitDone? && e.submit.TaskCreated?
    case Downloading => Replies(w, e, k) && e == ShowDone(e.pid, TaskSucceeded)
    case Running => Replies(w, e, k) && e == ShowDone(e.pid, TaskOther)
  }

  /** The row comes to hold the state exactly for its reason. */
  ghost predicate Comes(w: World, e: Event, k: nat, s: JobState)
    requires k < |w.table.jobs|
  {
    && k < |Next(w, e).table.jobs|
    && (w.table.jobs[k].state != s ==> (Next(w, e).table.jobs[k].state == s <==> Because(w, e, k, s)))
  }

  // ----- one step -----

  lemma OwnRow(w: World, p: nat, k: nat)
    requires Inv(w) && k < |w.table.jobs| && IsOpen(w, p)
    ensures OwnTick(w, p, k) ==> PcJobOk(w.table.jobs[k], w.table.submits, InstanceOf(w, p).pc)
  {
  }

  lemma WorkflowWrites(w: World, e: Event, k: nat, s: JobState)
    requires Inv(w) && k < |w.table.jobs| && IsOpen(w, e.pid) && e.WorkflowDone?
    ensures Comes(w, e, k, s)
  {
    OwnRow(w, e.pid, k);
  }

  lemma PreflightWrites(w: World, e: Event, k: nat, s: JobState)
    requires Inv(w) && k < |w.table.jobs| && IsOpen(w, e.pid) && e.PreflightDone?
    ensures Comes(w, e, k, s)
  {
    OwnRow(w, e.pid, k);
  }

  lemma SubmitWrites(w: World, e: Event, k: nat, s: JobState)
    requires Inv(w) && k < |w.table.jobs| && IsOpen(w, e.pid) && e.SubmitDone?
    ensures Comes(w, e, k, s)
  {
    OwnRow(w, e.pid, k);
  }

  lemma ShowWrites(w: World, e: Event, k: nat, s: JobState)
    requires Inv(w) && k < |w.table.jobs| && IsOpen(w, e.pid) && e.ShowDone?
    ensures Comes(w, e, k, s)
  {
    OwnRow(w, e.pid, k);
  }

  lemma GetWrites(w: World, e: Event, k: nat, s: JobState)
    requires Inv(w) && k < |w.table.jobs| && IsOpen(w, e.pid) && e.GetDone?
    ensures Comes(w, e, k, s)
  {
    OwnRow(w, e.pid, k);
  }

  lemma TickWrites(w: World, e: Event, k: nat, s: JobState)
    requires Inv(w) && k < |w.table.jobs| && IsOpen(w, e.pid) && e.Tick?
    ensures Comes(w, e, k, s)
  {
    var jobs := w.table.jobs;
    if Head(jobs).Some? {
      var h := Head(jobs).value;
      assert h != k ==> !IsHead(jobs, k) && jobs[h].id != jobs[k].id;
      assert jobs[h].state.Queued? ==> jobs[h].taskId.None?;
    }
  }

  lemma CancelBeginWrites(w: World, e: Event, k: nat, s: JobState)
    requires Inv(w) && k < |w.table.jobs| && IsOpen(w, e.pid) && e.CancelBegin?
    ensures Comes(w, e, k, s)
  {
    if e.row < |w.table.jobs| && e.row != k {
      assert w.table.jobs[e.row].id != w.table.jobs[k].id;
    }
  }

  lemma CancelEndWrites(w: World, e: Event, k: nat, s: JobState)
    requires Inv(w) && k < |w.table.jobs| && e.CancelEnd?
    ensures Comes(w, e, k, s)
  {
  }

  lemma CrashWrites(w: World, e: Event, k: nat, s: JobState)
    requires Inv(w) && k < |w.table.jobs| && e.CrashBeforeSubmit?
    ensures Comes(w, e, k, s)
  {
    if IsOpen(w, e.pid) {
      OwnRow(w, e.pid, k);
    }
  }

  lemma OpenWrites(w: World, e: Event, k: nat, s: JobState)
    requires Inv(w) && k < |w.table.jobs| && e.Open?
    ensures Comes(w, e, k, s)
  {
  }

  /** The other events leave the rows there are alone. */
  lemma NothingWritten(w: World, e: Event, k: nat, s: JobState)
    requires k < |w.table.jobs|
    requires e.Start? || e.Crash? || e.Add? || e.Retry? || e.CloseBegin? || e.CloseEnd? || !IsOpen(w, e.pid)
    requires !e.CancelEnd? && !e.Open? && !e.CrashBeforeSubmit?
    ensures Comes(w, e, k, s)
  {
    assert Next(w, e).table.jobs[..|w.table.jobs|] == w.table.jobs;
  }

  /** In every step, a row comes to hold a state exactly for the reason listed for that state. */
  lemma StateWrittenExactlyWhen(w: World, e: Event, k: nat, s: JobState)
    requires Inv(w) && k < |w.table.jobs|
    ensures Comes(w, e, k, s)
  {
    if e.CancelEnd? {
      CancelEndWrites(w, e, k, s);
    } else if e.Open? {
      OpenWrites(w, e, k, s);
    } else if e.CrashBeforeSubmit? {
      CrashWrites(w, e, k, s);
    } else if !IsOpen(w, e.pid) {
      NothingWritten(w, e, k, s);
    } else {
      match e
      case Tick(_, _) => TickWrites(w, e, k, s);
      case WorkflowDone(_, _) => WorkflowWrites(w, e, k, s);
      case PreflightDone(_, _) => PreflightWrites(w, e, k, s);
      case SubmitDone(_, _) => SubmitWrites(w, e, k, s);
      case ShowDone(_, _) => ShowWrites(w, e, k, s);
      case GetDone(_, _) => GetWrites(w, e, k, s);
      case CancelBegin(_, _) => CancelBeginWrites(w, e, k, s);
      case _ => NothingWritten(w, e, k, s);
    }
  }

  // ----- the other columns -----

  /** The event stores a task id with row k. */
  predicate GivesTask(w: World, e: Event, k: nat) {
    Replies(w, e, k) && e.SubmitDone? && e.submit.TaskCreated?
  }

  /** Nothing of the row but its state differs, and its task id as given. */
  predicate KeepsRow(job: Job, job': Job, task: Option<string>) {
    job' == job.(state := job'.state, taskId := task)
  }

  lemma QueueStepColumns(q: Queue, e: Event, k: nat)
    requires k < |q.table.jobs|
    ensures k < |QueueStep(q, e).table.jobs|
    ensures
      var own := q.inst.pc.AwaitSubmit? && q.inst.pc.id == q.table.jobs[k].id;
      var gives := own && e.SubmitDone? && e.submit.TaskCreated?;
      var task := if gives then Some(e.submit.task) else q.table.jobs[k].taskId;
      KeepsRow(q.table.jobs[k], QueueStep(q, e).table.jobs[k], task)
  {
  }

  lemma OtherColumns(w: World, e: Event, k: nat)
    requires k < |w.table.jobs| && (!IsOpen(w, e.pid) || e.Start? || e.Crash? || e.Open? || e.CancelEnd?
          || e.CrashBeforeSubmit? || e.Add? || e.Retry? || e.CancelBegin? || e.CloseEnd?)
    ensures k < |Next(w, e).table.jobs|
    ensures KeepsRow(w.table.jobs[k], Next(w, e).table.jobs[k], w.table.jobs[k].taskId)
  {
  }

  /** A task id is stored exactly by the reply that created the task; nothing else of a row but its state changes. */
  lemma ColumnsKept(w: World, e: Event, k: nat)
    requires k < |w.table.jobs|
    ensures k < |Next(w, e).table.jobs|
    ensures
      var task := if GivesTask(w, e, k) then Some(e.submit.task) else w.table.jobs[k].taskId;
      KeepsRow(w.table.jobs[k], Next(w, e).table.jobs[k], task)
  {
    if !IsOpen(w, e.pid) || e.Start? || e.Crash? || e.Open? || e.CancelEnd? || e.CrashBeforeSubmit?
      || e.Add? || e.Retry? || e.CancelBegin? || e.CloseEnd?
    {
      OtherColumns(w, e, k);
    } else {
      QueueStepColumns(QueueOf(w, e.pid), e, k);
    }
  }

  /** The row that add or retry appends. */
  ghost predicate Appends(w: World, e: Event, job: Job) {
    var jobs := w.table.jobs;
    && IsOpen(w, e.pid) && (e.Add? || e.Retry?)
    && job.id == e.id && !HasId(jobs, e.id) && !HasRequestId(jobs, job.request.requestId)
    && job.state.Queued? && job.taskId.None? && job.created == e.now
    && (e.Add? ==> Unfinished(jobs) < 100 && job.request == e.request && job.digest == Sha256(e.request))
    && (e.Retry? ==>
         && e.row < |jobs| && (jobs[e.row].state.Failed? || jobs[e.row].state.Cancelled?)
         && job.digest == jobs[e.row].digest
         && job.request == jobs[e.row].request.(requestId := jobs[e.row].request.requestId + ":retry:" + e.suffix))
  }

  /** The table has one row more exactly when add or retry appends one, and then that is the last row. */
  lemma AppendedExactlyWhen(w: World, e: Event)
    ensures |w.table.jobs| <= |Next(w, e).table.jobs| <= |w.table.jobs| + 1
    ensures |Next(w, e).table.jobs| == |w.table.jobs| + 1 <==> exists job :: Appends(w, e, job)
    ensures |Next(w, e).table.jobs| == |w.table.jobs| + 1 ==> Appends(w, e, Next(w, e).table.jobs[|w.table.jobs|])
  {
    if IsOpen(w, e.pid) && e.Add? {
      AddAppends(w, e);
    } else if IsOpen(w, e.pid) && e.Retry? {
      RetryAppends(w, e);
    }
  }

  lemma AddAppends(w: World, e: Event)
    requires IsOpen(w, e.pid) && e.Add?
    ensures |Next(w, e).table.jobs| == |w.table.jobs| + 1 ==> Appends(w, e, Next(w, e).table.jobs[|w.table.jobs|])
    ensures |Next(w, e).table.jobs| == |w.table.jobs| ==> !exists job :: Appends(w, e, job)
    ensures |w.table.jobs| <= |Next(w, e).table.jobs| <= |w.table.jobs| + 1
  {
  }

  lemma RetryAppends(w: World, e: Event)
    requires IsOpen(w, e.pid) && e.Retry?
    ensures |Next(w, e).table.jobs| == |w.table.jobs| + 1 ==> Appends(w, e, Next(w, e).table.jobs[|w.table.jobs|])
    ensures |Next(w, e).table.jobs| == |w.table.jobs| ==> !exists job :: Appends(w, e, job)
    ensures |w.table.jobs| <= |Next(w, e).table.jobs| <= |w.table.jobs| + 1
  {
  }

  /** The count that add compares with the cap is the number of rows that are not finished. */
  lemma {:induction false} UnfinishedIs(jobs: seq<Job>)
    ensures Unfinished(jobs) == |set k | 0 <= k < |jobs| && !Terminal(jobs[k].state)|
  {
    if jobs != [] {
      var n := |jobs| - 1;
      UnfinishedIs(jobs[..n]);
      var all, front := set k | 0 <= k < |jobs| && !Terminal(jobs[k].state),
                        set k | 0 <= k < n && !Terminal(jobs[..n][k].state);
      assert all == front + if Terminal(jobs[n].state) then {} else {n};
    }
  }

  // ----- where the tick stands -----

  function PcOf(w: World, p: nat): Pc {
    if IsOpen(w, p) then InstanceOf(w, p).pc else Idle
  }

  /** A tick begins with this row, whose inputs are written. */
  ghost predicate TakesUp(w: World, e: Event, id: JobId, pinned: bool) {
    exists k: nat :: Begins(w, e, k) && w.table.jobs[k].state.Queued? && !e.argsFail
                  && w.table.jobs[k].id == id && w.table.jobs[k].request.pinned == pinned
  }

  ghost predicate Polls(w: World, e: Event, id: JobId, task: Option<string>) {
    exists k: nat :: Begins(w, e, k) && !w.table.jobs[k].state.Queued?
                  && w.table.jobs[k].id == id && w.table.jobs[k].taskId == task
  }

  /** The answer leads to another call of the same tick. */
  predicate GoesOn(inst: Instance, e: Event) {
    || (e.WorkflowDone? && e.workflow.SameDigest?)
    || (e.PreflightDone? && e.preflight.Ready? && !inst.closing)
    || (e.ShowDone? && e.show.TaskSucceeded?)
  }

  /** Why the tick of e's process comes to stand at this await. */
  ghost predicate StandsBecause(w: World, e: Event, pc: Pc)
    requires IsOpen(w, e.pid)
  {
    var inst := InstanceOf(w, e.pid);
    match pc
    case Idle => Answers(inst.pc, e) && !GoesOn(inst, e)
    case AwaitWorkflow(id) => TakesUp(w, e, id, true)
    case AwaitPreflight(id) =>
      TakesUp(w, e, id, false) || (inst.pc == AwaitWorkflow(id) && Answers(inst.pc, e) && GoesOn(inst, e))
    case AwaitSubmit(id) => inst.pc == AwaitPreflight(id) && Answers(inst.pc, e) && GoesOn(inst, e)
    case AwaitShow(id, task) => Polls(w, e, id, task)
    case AwaitGet(id, task) => inst.pc == AwaitShow(id, task) && Answers(inst.pc, e) && GoesOn(inst, e)
  }

  /** While a process has the queue open, its tick comes to an await exactly for the reason listed for it. */
  lemma StandsExactlyWhen(w: World, e: Event, pc: Pc)
    requires Inv(w) && IsOpen(w, e.pid) && IsOpen(Next(w, e), e.pid) && InstanceOf(w, e.pid).pc != pc
    ensures InstanceOf(Next(w, e), e.pid).pc == pc <==> StandsBecause(w, e, pc)
  {
    if e.Tick? {
      BeginsAt(w, e, pc);
    } else {
      AnswersLead(w, e, pc);
    }
  }

  lemma BeginsAt(w: World, e: Event, pc: Pc)
    requires Inv(w) && IsOpen(w, e.pid) && e.Tick? && InstanceOf(w, e.pid).pc != pc
    ensures IsOpen(Next(w, e), e.pid) && (InstanceOf(Next(w, e), e.pid).pc == pc <==> StandsBecause(w, e, pc))
  {
    var jobs := w.table.jobs;
    if k: nat :| Begins(w, e, k) {
      HeadUnique(jobs, k, Head(jobs).value);
      assert forall h: nat :: Begins(w, e, h) ==> h == k;
    } else if Head(jobs).Some? {
      assert !Begins(w, e, Head(jobs).value);
    }
  }

  lemma AnswersLead(w: World, e: Event, pc: Pc)
    requires IsOpen(w, e.pid) && IsOpen(Next(w, e), e.pid) && !e.Tick? && InstanceOf(w, e.pid).pc != pc
    ensures InstanceOf(Next(w, e), e.pid).pc == pc <==> StandsBecause(w, e, pc)
  {
  }

  ghost predicate Issues(w: World, e: Event) {
    && e.PreflightDone? && e.preflight.Ready? && IsOpen(w, e.pid)
    && InstanceOf(w, e.pid).pc.AwaitPreflight? && !InstanceOf(w, e.pid).closing
  }

  /** A submit is issued exactly when a ready preflight is answered to a queue that is not closing. */
  lemma SubmitIssuedExactlyWhen(w: World, e: Event)
    ensures Next(w, e).table.submits == w.table.submits + if Issues(w, e) then [InstanceOf(w, e.pid).pc.id] else []
  {
  }

  // ----- every run -----

  /** Step n of the run gave row k the state it still holds at the end. */
  ghost predicate GaveState(es: seq<Event>, n: nat, k: nat, s: JobState) {
    && n < |es| && k < |Run(NO_WORLD, es[..n]).table.jobs|
    && Because(Run(NO_WORLD, es[..n]), es[n], k, s)
    && forall m :: n < m <= |es| ==> HoldsAt(es, m, k, s)
  }

  ghost predicate HoldsAt(es: seq<Event>, m: nat, k: nat, s: JobState) {
    m <= |es| && k < |Run(NO_WORLD, es[..m]).table.jobs| && Run(NO_WORLD, es[..m]).table.jobs[k].state == s
  }

  /** Step n of the run appended row k, which is queued ever since. */
  ghost predicate AppendedBy(es: seq<Event>, n: nat, k: nat) {
    && n < |es| && k == |Run(NO_WORLD, es[..n]).table.jobs|
    && k < |Run(NO_WORLD, es[..n + 1]).table.jobs|
    && Appends(Run(NO_WORLD, es[..n]), es[n], Run(NO_WORLD, es[..n + 1]).table.jobs[k])
    && forall m :: n < m <= |es| ==> HoldsAt(es, m, k, Queued)
  }

  /** In every run, every row is as it was appended, or some step gave it its state for the reason listed. */
  lemma {:induction false} EveryStateHasItsReason(es: seq<Event>, k: nat)
    requires k < |Run(NO_WORLD, es).table.jobs|
    ensures
      var s := Run(NO_WORLD, es).table.jobs[k].state;
      (exists n: nat :: GaveState(es, n, k, s)) || (s.Queued? && exists n: nat :: AppendedBy(es, n, k))
    decreases |es|
  {
    if es != [] {
      var n := |es| - 1;
      var front, e := es[..n], es[n];
      var w := Run(NO_WORLD, front);
      var s := Run(NO_WORLD, es).table.jobs[k].state;
      assert es[..|es|] == es;
      RunKeepsInv(front);
      if k >= |w.table.jobs| {
        AppendedExactlyWhen(w, e);
        assert HoldsAt(es, |es|, k, Queued);
        assert AppendedBy(es, n, k);
      } else if w.table.jobs[k].state != s {
        StateWrittenExactlyWhen(w, e, k, s);
        assert HoldsAt(es, |es|, k, s);
        assert GaveState(es, n, k, s);
      } else {
        EveryStateHasItsReason(front, k);
        StillHolds(es, k, s);
      }
    }
  }

  lemma HoldsInFront(es: seq<Event>, m: nat, k: nat, s: JobState)
    requires es != [] && m < |es|
    ensures HoldsAt(es[..|es| - 1], m, k, s) <==> HoldsAt(es, m, k, s)
  {
    assert es[..|es| - 1][..m] == es[..m];
  }

  lemma StillGave(es: seq<Event>, n: nat, k: nat, s: JobState)
    requires es != [] && HoldsAt(es, |es|, k, s) && GaveState(es[..|es| - 1], n, k, s)
    ensures GaveState(es, n, k, s)
  {
    assert es[..|es| - 1][..n] == es[..n];
    forall m | n < m <= |es|
      ensures HoldsAt(es, m, k, s)
    {
      if m < |es| {
        HoldsInFront(es, m, k, s);
      }
    }
  }

  lemma StillAppended(es: seq<Event>, n: nat, k: nat)
    requires es != [] && HoldsAt(es, |es|, k, Queued) && AppendedBy(es[..|es| - 1], n, k)
    ensures AppendedBy(es, n, k)
  {
    assert es[..|es| - 1][..n] == es[..n] && es[..|es| - 1][..n + 1] == es[..n + 1];
    forall m | n < m <= |es|
      ensures HoldsAt(es, m, k, Queued)
    {
      if m < |es| {
        HoldsInFront(es, m, k, Queued);
      }
    }
  }

  lemma StillHolds(es: seq<Event>, k: nat, s: JobState)
    requires es != [] && HoldsAt(es, |es|, k, s)
    requires
      var front := es[..|es| - 1];
      (exists n: nat :: GaveState(front, n, k, s)) || (s.Queued? && exists n: nat :: AppendedBy(front, n, k))
    ensures (exists n: nat :: GaveState(es, n, k, s)) || (s.Queued? && exists n: nat :: AppendedBy(es, n, k))
  {
    var front := es[..|es| - 1];
    if n: nat :| GaveState(front, n, k, s) {
      StillGave(es, n, k, s);
    } else {
      var n: nat :| AppendedBy(front, n, k);
      StillAppended(es, n, k);
    }
  }

  // ----- what comes before a submit -----

  ghost function PcIn(es: seq<Event>, n: nat, p: nat): Pc
    requires n <= |es|
  {
    PcOf(Run(NO_WORLD, es[..n]), p)
  }

  /** Since step i the tick of p has been waiting for the preflight of the job. */
  ghost predicate WaitsSince(es: seq<Event>, i: nat, p: nat, id: JobId) {
    i < |es| && forall m :: i < m <= |es| ==> PcIn(es, m, p) == AwaitPreflight(id)
  }

  /** The tick of p waits for a preflight: the workflow was found unchanged, or it has no digest to compare. */
  ghost predicate Checked(es: seq<Event>, p: nat, id: JobId) {
    exists i: nat :: WaitsSince(es, i, p, id) && Clears(Run(NO_WORLD, es[..i]), es[i], p, id)
  }

  ghost predicate Clears(w: World, e: Event, p: nat, id: JobId) {
    || (e == WorkflowDone(p, SameDigest) && PcOf(w, p) == AwaitWorkflow(id))
    || (e == Tick(p, false) && TakesUp(w, e, id, false))
  }

  lemma {:induction false} PreflightIsChecked(es: seq<Event>, p: nat, id: JobId)
    requires PcIn(es, |es|, p) == AwaitPreflight(id)
    ensures Checked(es, p, id)
  {
    assert es[..|es|] == es;
    if es != [] {
      var front := es[..|es| - 1];
      assert front[..|front|] == front;
      if PcIn(front, |front|, p) == AwaitPreflight(id) {
        PreflightIsChecked(front, p, id);
        StillChecked(es, p, id);
      } else {
        StartsChecked(es, p, id);
      }
    }
  }

  lemma StartsChecked(es: seq<Event>, p: nat, id: JobId)
    requires es != [] && PcIn(es, |es| - 1, p) != AwaitPreflight(id) && PcIn(es, |es|, p) == AwaitPreflight(id)
    ensures Checked(es, p, id)
  {
    var n := |es| - 1;
    RunKeepsInv(es[..n]);
    assert es[..|es|] == es && WaitsSince(es, n, p, id);
    LeadsToPreflight(Run(NO_WORLD, es[..n]), es[n], p, id);
  }

  lemma LeadsToPreflight(w: World, e: Event, p: nat, id: JobId)
    requires Inv(w) && PcOf(w, p) != AwaitPreflight(id) && PcOf(Next(w, e), p) == AwaitPreflight(id)
    ensures Clears(w, e, p, id)
  {
    if e.pid == p && IsOpen(w, p) {
      StandsExactlyWhen(w, e, AwaitPreflight(id));
    }
  }

  lemma StillChecked(es: seq<Event>, p: nat, id: JobId)
    requires es != [] && PcIn(es, |es|, p) == AwaitPreflight(id) && Checked(es[..|es| - 1], p, id)
    ensures Checked(es, p, id)
  {
    var front := es[..|es| - 1];
    var i: nat :| WaitsSince(front, i, p, id) && Clears(Run(NO_WORLD, front[..i]), front[i], p, id);
    assert front[..i] == es[..i];
    StillWaits(es, i, p, id);
  }

  lemma StillWaits(es: seq<Event>, i: nat, p: nat, id: JobId)
    requires es != [] && PcIn(es, |es|, p) == AwaitPreflight(id) && WaitsSince(es[..|es| - 1], i, p, id)
    ensures WaitsSince(es, i, p, id)
  {
    var front := es[..|es| - 1];
    forall m | i < m <= |es|
      ensures PcIn(es, m, p) == AwaitPreflight(id)
    {
      if m < |es| {
        assert front[..m] == es[..m];
        assert PcIn(front, m, p) == AwaitPreflight(id);
      }
    }
  }

  /**
   In every run, a submit follows a preflight that answered ready in the same tick, and before that the tick
   found the digest of the workflow unchanged, unless the request has none.
   */
  lemma SubmitsAreChecked(es: seq<Event>, e: Event)
    requires Run(NO_WORLD, es + [e]).table.submits != Run(NO_WORLD, es).table.submits
    ensures e.PreflightDone? && e.preflight.Ready? && PcOf(Run(NO_WORLD, es), e.pid).AwaitPreflight?
    ensures Checked(es, e.pid, PcOf(Run(NO_WORLD, es), e.pid).id)
    ensures
      var w := Run(NO_WORLD, es);
      Run(NO_WORLD, es + [e]).table.submits == w.table.submits + [PcOf(w, e.pid).id]
  {
    var w := Run(NO_WORLD, es);
    SubmitsAfter(es, e);
    Issued(w, e, Run(NO_WORLD, es + [e]).table.submits);
    WaitsChecked(es, e.pid, PcOf(w, e.pid).id);
  }

  lemma WaitsChecked(es: seq<Event>, p: nat, id: JobId)
    requires PcOf(Run(NO_WORLD, es), p) == AwaitPreflight(id)
    ensures Checked(es, p, id)
  {
    assert es[..|es|] == es;
    PreflightIsChecked(es, p, id);
  }

  lemma Issued(w: World, e: Event, submits: seq<JobId>)
    requires submits == w.table.submits + if Issues(w, e) then [PcOf(w, e.pid).id] else []
    requires submits != w.table.submits
    ensures Issues(w, e) && submits == w.table.submits + [PcOf(w, e.pid).id]
  {
    assert w.table.submits + [] == w.table.submits;
  }

  lemma SubmitsAfter(es: seq<Event>, e: Event)
    ensures
      var w := Run(NO_WORLD, es);
      Run(NO_WORLD, es + [e]).table.submits == w.table.submits + if Issues(w, e) then [PcOf(w, e.pid).id] else []
  {
    RunSnoc(NO_WORLD, es, e);
    SubmitIssuedExactlyWhen(Run(NO_WORLD, es), e);
  }
}
