/**
 What a cancel and a retry of a Toonflow video can and cannot rely on.
 */
module QueueCancel {
  import opened Common
  import opened QueueModel
  import opened QueueRuns
  import opened QueueOrder

  // ----- finished rows -----

  ghost predicate InFlight(w: World, id: JobId) {
    exists p :: p in w.procs && w.procs[p].queue.Some? && !w.procs[p].queue.value.pc.Idle?
             && w.procs[p].queue.value.pc.id == id
  }

  /** The replies after which a tick writes an unfinished state to its own row, whatever the row holds. */
  predicate Revives(inst: Instance, e: Event) {
    match e
    case PreflightDone(_, r) => inst.pc.AwaitPreflight? && r.Ready?
    case CrashBeforeSubmit(_) => inst.pc.AwaitPreflight? && !inst.closing
    case SubmitDone(_, r) => inst.pc.AwaitSubmit? && r.TaskCreated?
    case ShowDone(_, r) => inst.pc.AwaitShow? && (r.TaskSucceeded? || r.TaskOther?)
    case _ => false
  }

  lemma TickLeavesFinished(q: Queue, argsFail: bool, k: nat)
    requires QueueOk(q) && k < |q.table.jobs| && Terminal(q.table.jobs[k].state)
    ensures |TickStart(q, argsFail).table.jobs| == |q.table.jobs|
    ensures TickStart(q, argsFail).table.jobs[k] == q.table.jobs[k]
    ensures q.inst.pc.Idle? && !TickStart(q, argsFail).inst.pc.Idle? ==>
      TickStart(q, argsFail).inst.pc.id != q.table.jobs[k].id
  {
    if Head(q.table.jobs).Some? {
      var h := Head(q.table.jobs).value;
      assert h < k || k < h;
    }
  }

  lemma QueueStepKeepsOthers(q: Queue, e: Event, k: nat)
    requires QueueOk(q) && k < |q.table.jobs| && Terminal(q.table.jobs[k].state)
    requires q.inst.pc.Idle? || q.inst.pc.id != q.table.jobs[k].id
    ensures |QueueStep(q, e).table.jobs| == |q.table.jobs|
    ensures QueueStep(q, e).table.jobs[k] == q.table.jobs[k]
    ensures !QueueStep(q, e).inst.pc.Idle? ==> QueueStep(q, e).inst.pc.id != q.table.jobs[k].id
  {
    if e.Tick? {
      TickLeavesFinished(q, e.argsFail, k);
    }
  }

  /** A finished row in flight was cancelled during the tick; the tick's reply decides what it becomes. */
  lemma QueueStepOwnRow(q: Queue, e: Event, k: nat)
    requires QueueOk(q) && k < |q.table.jobs| && Terminal(q.table.jobs[k].state) && !e.CrashBeforeSubmit?
    requires !q.inst.pc.Idle? && q.inst.pc.id == q.table.jobs[k].id
    ensures q.table.jobs[k].state.Cancelled?
    ensures |QueueStep(q, e).table.jobs| == |q.table.jobs|
    ensures !Terminal(QueueStep(q, e).table.jobs[k].state) <==> Revives(q.inst, e)
  {
    assert PcJobOk(q.table.jobs[k], q.table.submits, q.inst.pc);
  }

  lemma QueueStepRow(q: Queue, e: Event, k: nat)
    requires QueueOk(q) && k < |q.table.jobs| && Terminal(q.table.jobs[k].state) && !e.CrashBeforeSubmit?
    ensures |QueueStep(q, e).table.jobs| == |q.table.jobs|
    ensures !Terminal(QueueStep(q, e).table.jobs[k].state) <==> Revives(q.inst, e) && q.inst.pc.id == q.table.jobs[k].id
  {
    if q.inst.pc.Idle? || q.inst.pc.id != q.table.jobs[k].id {
      QueueStepKeepsOthers(q, e, k);
    } else {
      QueueStepOwnRow(q, e, k);
    }
  }

  /** Exactly when a finished row becomes unfinished again: a cancel landed during the row's own tick. */
  lemma RevivedExactlyWhen(w: World, e: Event, k: nat)
    requires Inv(w) && k < |w.table.jobs| && Terminal(w.table.jobs[k].state)
    ensures k < |Next(w, e).table.jobs|
    ensures !Terminal(Next(w, e).table.jobs[k].state) <==>
      && !e.Start? && IsOpen(w, e.pid) && Revives(InstanceOf(w, e.pid), e)
      && InstanceOf(w, e.pid).pc.id == w.table.jobs[k].id
  {
    if e.CrashBeforeSubmit? {
      CrashRow(w, e, k);
    } else if !e.Start? && IsOpen(w, e.pid) {
      QueueStepRow(QueueOf(w, e.pid), e, k);
    }
  }

  lemma CrashRow(w: World, e: Event, k: nat)
    requires k < |w.table.jobs| && Terminal(w.table.jobs[k].state) && e.CrashBeforeSubmit?
    ensures k < |Next(w, e).table.jobs|
    ensures !Terminal(Next(w, e).table.jobs[k].state) <==>
      IsOpen(w, e.pid) && Revives(InstanceOf(w, e.pid), e) && InstanceOf(w, e.pid).pc.id == w.table.jobs[k].id
  {
  }

  /** A row that finished while no tick was working on it stays finished in every continuation. */
  lemma {:induction false} FinishedForever(w: World, es: seq<Event>, k: nat)
    requires Inv(w) && k < |w.table.jobs|
    requires Terminal(w.table.jobs[k].state) && !InFlight(w, w.table.jobs[k].id)
    ensures Inv(Run(w, es))
    ensures k < |Run(w, es).table.jobs| && Run(w, es).table.jobs[k].id == w.table.jobs[k].id
    ensures Terminal(Run(w, es).table.jobs[k].state) && !InFlight(Run(w, es), w.table.jobs[k].id)
  {
    if es != [] {
      FinishedForever(w, es[..|es| - 1], k);
      StaysFinished(Run(w, es[..|es| - 1]), es[|es| - 1], k);
    }
  }

  lemma StaysFinished(w: World, e: Event, k: nat)
    requires Inv(w) && k < |w.table.jobs|
    requires Terminal(w.table.jobs[k].state) && !InFlight(w, w.table.jobs[k].id)
    ensures Inv(Next(w, e))
    ensures k < |Next(w, e).table.jobs| && Next(w, e).table.jobs[k].id == w.table.jobs[k].id
    ensures Terminal(Next(w, e).table.jobs[k].state) && !InFlight(Next(w, e), w.table.jobs[k].id)
  {
    NextKeepsInv(w, e);
    RevivedExactlyWhen(w, e, k);
    StaysOutOfFlight(w, e, k);
  }

  lemma StaysOutOfFlight(w: World, e: Event, k: nat)
    requires Inv(w) && k < |w.table.jobs|
    requires Terminal(w.table.jobs[k].state) && !InFlight(w, w.table.jobs[k].id)
    ensures k < |Next(w, e).table.jobs| && Next(w, e).table.jobs[k].id == w.table.jobs[k].id
    ensures !InFlight(Next(w, e), w.table.jobs[k].id)
  {
    if IsOpen(w, e.pid) {
      QueueStepKeepsOthers(QueueOf(w, e.pid), e, k);
    }
  }

  // ----- two runs that show the hypotheses are needed -----

  /** A world with one process, 1, whose queue is open. */
  function Solo(q: Queue): World {
    World(q.table, 1, map[1 := Process(Some(q.inst), multiset{})])
  }

  function Single(job: Job, submits: seq<JobId>, pc: Pc): Queue {
    Queue(Table([job], submits), Instance(false, pc))
  }

  lemma SoloStep(q: Queue, e: Event)
    requires e.pid == 1
    requires e.Tick? || e.PreflightDone? || e.SubmitDone?
    ensures Next(Solo(q), e) == Solo(QueueStep(q, e))
  {
    assert Next(Solo(q), e).procs == Solo(QueueStep(q, e)).procs;
  }

  /** Process 1 starts, opens the queue and adds one job. */
  function OneJobRun(a: Request): seq<Event> {
    [] + [Start(1)] + [Open(1, false)] + [Add(1, a, "A", 10)]
  }

  lemma OpenedWorld()
    ensures Run(NO_WORLD, [] + [Start(1)] + [Open(1, false)]) == Solo(Queue(Table([], []), Instance(false, Idle)))
  {
    RunSnoc(NO_WORLD, [], Start(1));
    RunSnoc(NO_WORLD, [] + [Start(1)], Open(1, false));
  }

  lemma AddsJob(a: Request)
    ensures Next(Solo(Queue(Table([], []), Instance(false, Idle))), Add(1, a, "A", 10)) ==
      Solo(Single(NewJob("A", Sha256(a), a, 10), [], Idle))
  {
    assert AddJob([], a, "A", 10) == [NewJob("A", Sha256(a), a, 10)];
  }

  lemma OneJobWorld(a: Request)
    ensures Run(NO_WORLD, OneJobRun(a)) == Solo(Single(NewJob("A", Sha256(a), a, 10), [], Idle))
  {
    RunSnoc(NO_WORLD, [] + [Start(1)] + [Open(1, false)], Add(1, a, "A", 10));
    OpenedWorld();
    AddsJob(a);
  }

  lemma TickChecks(job: Job)
    requires job.state.Queued? && !job.request.pinned
    ensures TickStart(Single(job, [], Idle), false) == Single(job.(state := Checking), [], AwaitPreflight(job.id))
  {
    assert IsHead([job], 0);
    HeadUnique([job], 0, Head([job]).value);
    assert SetState([job], job.id, Checking) == [job.(state := Checking)];
  }

  /** Process 1 waits for the preflight of its job. */
  function CheckingRun(a: Request): seq<Event> {
    OneJobRun(a) + [Tick(1, false)]
  }

  lemma CheckingWorld(a: Request)
    requires !a.pinned
    ensures Run(NO_WORLD, CheckingRun(a)) ==
      Solo(Single(NewJob("A", Sha256(a), a, 10).(state := Checking), [], AwaitPreflight("A")))
  {
    var job := NewJob("A", Sha256(a), a, 10);
    OneJobWorld(a);
    RunSnoc(NO_WORLD, OneJobRun(a), Tick(1, false));
    SoloStep(Single(job, [], Idle), Tick(1, false));
    TickChecks(job);
  }

  lemma CancelledWorld(a: Request)
    requires !a.pinned
    ensures Run(NO_WORLD, CheckingRun(a) + [CancelBegin(1, 0)]) ==
      Solo(Single(NewJob("A", Sha256(a), a, 10).(state := Cancelled), [], AwaitPreflight("A")))
  {
    var job := NewJob("A", Sha256(a), a, 10).(state := Checking);
    CheckingWorld(a);
    RunSnoc(NO_WORLD, CheckingRun(a), CancelBegin(1, 0));
    assert SetState([job], "A", Cancelled) == [job.(state := Cancelled)];
  }

  /** A cancel that lands during the preflight is undone, and the job is submitted all the same. */
  lemma CancelDuringTickIsLost(a: Request)
    requires !a.pinned
    ensures
      var w := Run(NO_WORLD, CheckingRun(a) + [CancelBegin(1, 0)]);
      |w.table.jobs| == 1 && w.table.jobs[0].state.Cancelled?
    ensures
      var w := Run(NO_WORLD, CheckingRun(a) + [CancelBegin(1, 0)] + [PreflightDone(1, Ready)]);
      |w.table.jobs| == 1 && w.table.jobs[0].state.Submitting? && w.table.submits == ["A"]
  {
    CancelledWorld(a);
    RunSnoc(NO_WORLD, CheckingRun(a) + [CancelBegin(1, 0)], PreflightDone(1, Ready));
    var job := NewJob("A", Sha256(a), a, 10).(state := Cancelled);
    SoloStep(Single(job, [], AwaitPreflight("A")), PreflightDone(1, Ready));
  }

  /** Process 1 has submitted its first job. */
  function SubmittedRun(a: Request): seq<Event> {
    CheckingRun(a) + [PreflightDone(1, Ready)] + [SubmitDone(1, TaskCreated("tsk_1"))]
  }

  lemma SubmittedWorld(a: Request)
    requires !a.pinned
    ensures Run(NO_WORLD, SubmittedRun(a)) ==
      Solo(Single(NewJob("A", Sha256(a), a, 10).(state := Submitted, taskId := Some("tsk_1")), ["A"], Idle))
  {
    var job := NewJob("A", Sha256(a), a, 10);
    CheckingWorld(a);
    RunSnoc(NO_WORLD, CheckingRun(a), PreflightDone(1, Ready));
    SoloStep(Single(job.(state := Checking), [], AwaitPreflight("A")), PreflightDone(1, Ready));
    assert SetState([job.(state := Checking)], "A", Submitting) == [job.(state := Submitting)];
    RunSnoc(NO_WORLD, CheckingRun(a) + [PreflightDone(1, Ready)], SubmitDone(1, TaskCreated("tsk_1")));
    SoloStep(Single(job.(state := Submitting), ["A"], AwaitSubmit("A")), SubmitDone(1, TaskCreated("tsk_1")));
    assert SetSubmitted([job.(state := Submitting)], "A", "tsk_1")
        == [job.(state := Submitted, taskId := Some("tsk_1"))];
  }

  /** A clock set back lets a newer job overtake an active one: two jobs are active at once. */
  lemma ClockSetBackBreaksOrder(a: Request, b: Request)
    requires a.requestId != b.requestId && !a.pinned && !b.pinned
    ensures
      var w := Run(NO_WORLD, SubmittedRun(a) + [Add(1, b, "B", 5)] + [Tick(1, false)]);
      |w.table.jobs| == 2 && Active(w.table.jobs[0].state) && Active(w.table.jobs[1].state)
  {
    SubmittedWorld(a);
    var w := Run(NO_WORLD, SubmittedRun(a));
    RunSnoc(NO_WORLD, SubmittedRun(a), Add(1, b, "B", 5));
    assert !HasRequestId(w.table.jobs, b.requestId) && !HasId(w.table.jobs, "B") && Unfinished(w.table.jobs) <= 1;
    var jobs := w.table.jobs + [NewJob("B", Sha256(b), b, 5)];
    var q := Queue(Table(jobs, ["A"]), Instance(false, Idle));
    assert Next(w, Add(1, b, "B", 5)) == Solo(q);
    RunSnoc(NO_WORLD, SubmittedRun(a) + [Add(1, b, "B", 5)], Tick(1, false));
    SoloStep(q, Tick(1, false));
    assert IsHead(jobs, 1);
    HeadUnique(jobs, 1, Head(jobs).value);
  }

  // ----- retry -----

  /** A retry keeps the old digest, so adding the very request it stored is refused as other content. */
  lemma RetriedRequestIsRefused(es: seq<Event>, k: nat, id: JobId, suffix: string, now: int, id': JobId, a: AddOutcome)
    requires k < |Run(NO_WORLD, es).table.jobs|
    requires RetryJob(Run(NO_WORLD, es).table.jobs, k, id, suffix, now) != Run(NO_WORLD, es).table.jobs
    requires AddAnswers(RetryJob(Run(NO_WORLD, es).table.jobs, k, id, suffix, now),
                        RetryRequest(Run(NO_WORLD, es).table.jobs[k].request, suffix), id', a)
    ensures a.OtherContent?
  {
    RunKeepsInv(es);
    var jobs := Run(NO_WORLD, es).table.jobs;
    var jobs' := RetryJob(jobs, k, id, suffix, now);
    var request := RetryRequest(jobs[k].request, suffix);
    assert jobs'[|jobs|].request.requestId == request.requestId;
    assert |jobs[k].digest.of.requestId| < |request.requestId|;
    forall i | 0 <= i < |jobs'| && jobs'[i].request.requestId == request.requestId
      ensures jobs'[i].digest != Sha256(request)
    {
      assert i == |jobs|;
    }
  }

  /**
   After a retry the video's first row is still the old, finished one, and cancelling by video does nothing,
   exactly when the clock is not behind that row's stamp.
   */
  lemma RetriedVideoCannotBeCancelledExactlyWhen(
      w: World, p: nat, video: int, k: nat, id: JobId, suffix: string, now: int)
    requires Inv(w) && IsOpen(w, p) && IsForVideo(w.table.jobs, video, k)
    requires Inserts(w, Retry(p, k, id, suffix, now))
    ensures
      var w' := Next(w, Retry(p, k, id, suffix, now));
      && (IsForVideo(w'.table.jobs, video, k) <==> w.table.jobs[k].created <= now)
      && Next(w', CancelBegin(p, k)) == w'
  {
    var w' := Next(w, Retry(p, k, id, suffix, now));
    var jobs, jobs' := w.table.jobs, w'.table.jobs;
    assert jobs'[|jobs|].request.videoId == Some(video) && jobs'[|jobs|].created == now;
    if jobs[k].created <= now {
      forall i | 0 <= i < |jobs'| && i != k && jobs'[i].request.videoId == Some(video)
        ensures Before(jobs', k, i)
      {
        if i < |jobs| {
          assert Before(jobs, k, i);
        }
      }
    } else {
      assert !Before(jobs', k, |jobs|);
    }
  }
}
