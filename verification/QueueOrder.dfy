/**
 Head-of-line order in the Toonflow queue: at most one active job, with nothing unfinished before it, as
 long as no job is inserted with a stamp behind a row that is running or may still be revived; and exactly
 then.
 */
module QueueOrder {
  import opened QueueModel
  import opened QueueRuns

  // ----- one active job at a time -----

  /** A suspended tick that can still write an active state over a cancel of its own row. */
  predicate CanRevive(inst: Instance) {
    inst.pc.AwaitSubmit? || inst.pc.AwaitShow? || (BeforeSubmit(inst.pc) && !inst.closing)
  }

  /** The row is active, or the suspended tick can still make it so. */
  predicate MayRun(job: Job, inst: Instance) {
    Active(job.state) || (CanRevive(inst) && job.id == inst.pc.id)
  }

  /** A row that may run is the only active one, and every row created before it has finished. */
  ghost predicate InLine(jobs: seq<Job>, inst: Instance) {
    forall i, k :: 0 <= i < |jobs| && 0 <= k < |jobs| && i != k && MayRun(jobs[k], inst) ==>
      !Active(jobs[i].state) && (Before(jobs, i, k) ==> Terminal(jobs[i].state))
  }

  /** While a tick is suspended no row but its own is active. */
  ghost predicate AloneInFlight(jobs: seq<Job>, inst: Instance) {
    !inst.pc.Idle? ==> forall i :: 0 <= i < |jobs| && jobs[i].id != inst.pc.id ==> !Active(jobs[i].state)
  }

  const RESTING := Instance(true, Idle)

  /** The promise itself: at most one active job, and every job created before it finished. */
  ghost predicate Ordered(w: World) {
    InLine(w.table.jobs, RESTING)
  }

  ghost predicate QueueInLine(q: Queue) {
    InLine(q.table.jobs, q.inst) && AloneInFlight(q.table.jobs, q.inst)
  }

  ghost predicate OrderInv(w: World) {
    Ordered(w) && forall p :: IsOpen(w, p) ==> QueueInLine(QueueOf(w, p))
  }

  ghost predicate Inserts(w: World, e: Event) {
    |Next(w, e).table.jobs| > |w.table.jobs|
  }

  ghost predicate MayRunIn(w: World, k: nat)
    requires k < |w.table.jobs|
  {
    Active(w.table.jobs[k].state) || exists p :: IsOpen(w, p) && MayRun(w.table.jobs[k], InstanceOf(w, p))
  }

  /** An insertion reads a clock that is not behind the stamp of any row that may run. */
  ghost predicate OnTime(w: World, e: Event) {
    Inserts(w, e) && (e.Add? || e.Retry?) ==>
      forall k :: 0 <= k < |w.table.jobs| && MayRunIn(w, k) ==> w.table.jobs[k].created <= e.now
  }

  ghost predicate OnTimeRun(w: World, es: seq<Event>) {
    forall n :: 0 <= n < |es| ==> OnTime(Run(w, es[..n]), es[n])
  }

  // ----- every step but an insertion keeps the line -----

  lemma StaysResting(jobs: seq<Job>, inst: Instance)
    requires InLine(jobs, inst)
    ensures InLine(jobs, RESTING)
  {
  }

  /** The first unfinished row has only finished rows before it, and no other row is active. */
  lemma HeadIsFirst(jobs: seq<Job>, h: nat)
    requires InLine(jobs, RESTING) && IsHead(jobs, h)
    ensures forall i :: 0 <= i < |jobs| && i != h ==> !Active(jobs[i].state)
    ensures forall i :: 0 <= i < |jobs| && i != h && Before(jobs, i, h) ==> Terminal(jobs[i].state)
  {
    assert forall i :: 0 <= i < |jobs| && i != h && !Terminal(jobs[i].state) ==> Before(jobs, h, i);
  }

  /** Only the state and task of the rows with that id changed. */
  ghost predicate RowChanged(jobs: seq<Job>, jobs': seq<Job>, id: JobId) {
    |jobs'| == |jobs| && forall k :: 0 <= k < |jobs| ==>
      && jobs'[k].id == jobs[k].id && jobs'[k].created == jobs[k].created
      && (jobs[k].id != id ==> jobs'[k].state == jobs[k].state)
  }

  /** Whatever becomes of a row that has the line to itself, the line stays in order. */
  lemma RowInLine(jobs: seq<Job>, jobs': seq<Job>, k: nat, inst': Instance)
    requires k < |jobs| && DistinctIds(jobs) && RowChanged(jobs, jobs', jobs[k].id)
    requires forall i :: 0 <= i < |jobs| && i != k ==> !Active(jobs[i].state)
    requires forall i :: 0 <= i < |jobs| && i != k && Before(jobs, i, k) ==> Terminal(jobs[i].state)
    requires inst'.pc.Idle? || inst'.pc.id == jobs[k].id
    ensures InLine(jobs', inst') && AloneInFlight(jobs', inst')
  {
    forall i, m | 0 <= i < |jobs'| && 0 <= m < |jobs'| && i != m && MayRun(jobs'[m], inst')
      ensures !Active(jobs'[i].state) && (Before(jobs', i, m) ==> Terminal(jobs'[i].state))
    {
      assert m == k;
      assert jobs[i].id != jobs[k].id;
    }
  }

  lemma TickStartInLine(q: Queue, argsFail: bool)
    requires QueueOk(q) && QueueInLine(q)
    ensures QueueInLine(TickStart(q, argsFail))
  {
    var jobs := q.table.jobs;
    if q.inst.pc.Idle? && !q.inst.closing && Head(jobs).Some? {
      var h := Head(jobs).value;
      StaysResting(jobs, q.inst);
      HeadIsFirst(jobs, h);
      var q' := TickStart(q, argsFail);
      RowInLine(jobs, q'.table.jobs, h, q'.inst);
    }
  }

  /** The suspended tick's own row has the line to itself, unless it was cancelled during the download. */
  lemma FlightRow(q: Queue) returns (k: nat)
    requires QueueOk(q) && QueueInLine(q) && !q.inst.pc.Idle?
    ensures k < |q.table.jobs| && q.table.jobs[k].id == q.inst.pc.id
    ensures PcJobOk(q.table.jobs[k], q.table.submits, q.inst.pc)
    ensures MayRun(q.table.jobs[k], q.inst) ==>
      forall i :: 0 <= i < |q.table.jobs| && i != k ==>
        !Active(q.table.jobs[i].state) && (Before(q.table.jobs, i, k) ==> Terminal(q.table.jobs[i].state))
  {
    k :| 0 <= k < |q.table.jobs| && q.table.jobs[k].id == q.inst.pc.id;
  }

  /** A reply to the suspended tick keeps the line, provided it revives nothing that could not be revived. */
  lemma ReplyInLine(q: Queue, q': Queue)
    requires QueueOk(q) && QueueInLine(q) && !q.inst.pc.Idle?
    requires RowChanged(q.table.jobs, q'.table.jobs, q.inst.pc.id)
    requires q'.inst.closing == q.inst.closing && (q'.inst.pc.Idle? || q'.inst.pc.id == q.inst.pc.id)
    requires forall k :: 0 <= k < |q.table.jobs| && q.table.jobs[k].id == q.inst.pc.id ==>
      (MayRun(q'.table.jobs[k], q'.inst) ==> MayRun(q.table.jobs[k], q.inst))
    ensures QueueInLine(q')
  {
    var k := FlightRow(q);
    var jobs, jobs' := q.table.jobs, q'.table.jobs;
    if MayRun(jobs[k], q.inst) {
      RowInLine(jobs, jobs', k, q'.inst);
    } else {
      assert forall m :: 0 <= m < |jobs| && m != k ==> jobs[m].id != jobs[k].id;
      assert forall m :: 0 <= m < |jobs'| ==> !MayRun(jobs'[m], q'.inst);
    }
  }

  lemma ResumeWorkflowInLine(q: Queue, r: WorkflowReply)
    requires QueueOk(q) && QueueInLine(q)
    ensures QueueInLine(ResumeWorkflow(q, r))
  {
    if q.inst.pc.AwaitWorkflow? {
      ReplyInLine(q, ResumeWorkflow(q, r));
    }
  }

  lemma ResumePreflightInLine(q: Queue, r: PreflightReply)
    requires QueueOk(q) && QueueInLine(q)
    ensures QueueInLine(ResumePreflight(q, r))
  {
    if q.inst.pc.AwaitPreflight? {
      ReplyInLine(q, ResumePreflight(q, r));
    }
  }

  lemma ResumeSubmitInLine(q: Queue, r: SubmitReply)
    requires QueueOk(q) && QueueInLine(q)
    ensures QueueInLine(ResumeSubmit(q, r))
  {
    if q.inst.pc.AwaitSubmit? {
      ReplyInLine(q, ResumeSubmit(q, r));
    }
  }

  lemma ResumeShowInLine(q: Queue, r: ShowReply)
    requires QueueOk(q) && QueueInLine(q)
    ensures QueueInLine(ResumeShow(q, r))
  {
    if q.inst.pc.AwaitShow? {
      ReplyInLine(q, ResumeShow(q, r));
    }
  }

  lemma ResumeGetInLine(q: Queue, r: GetReply)
    requires QueueOk(q) && QueueInLine(q)
    ensures QueueInLine(ResumeGet(q, r))
  {
    if q.inst.pc.AwaitGet? {
      ReplyInLine(q, ResumeGet(q, r));
    }
  }

  lemma QueueStepInLine(q: Queue, e: Event)
    requires QueueOk(q) && QueueInLine(q)
    ensures QueueInLine(QueueStep(q, e))
  {
    match e
    case Tick(_, f) => TickStartInLine(q, f);
    case WorkflowDone(_, r) => ResumeWorkflowInLine(q, r);
    case PreflightDone(_, r) => ResumePreflightInLine(q, r);
    case SubmitDone(_, r) => ResumeSubmitInLine(q, r);
    case ShowDone(_, r) => ResumeShowInLine(q, r);
    case GetDone(_, r) => ResumeGetInLine(q, r);
    case _ =>
  }

  lemma CancelInLine(jobs: seq<Job>, inst: Instance, id: JobId)
    requires InLine(jobs, inst) && AloneInFlight(jobs, inst)
    ensures InLine(SetState(jobs, id, Cancelled), inst) && AloneInFlight(SetState(jobs, id, Cancelled), inst)
  {
  }

  lemma RecoverInLine(jobs: seq<Job>)
    requires InLine(jobs, RESTING)
    ensures InLine(Recover(jobs), RESTING) && InLine(Recover(jobs), Instance(false, Idle))
  {
  }

  lemma CrashBeforeSubmitInLine(q: Queue)
    requires QueueOk(q) && QueueInLine(q) && q.inst.pc.AwaitPreflight? && !q.inst.closing
    ensures InLine(SetState(q.table.jobs, q.inst.pc.id, Submitting), RESTING)
  {
    ResumePreflightInLine(q, Ready);
    StaysResting(ResumePreflight(q, Ready).table.jobs, ResumePreflight(q, Ready).inst);
  }

  // ----- an insertion keeps it exactly when it is on time -----

  /** A queued row added at the end keeps the line exactly when no row that may run was created after it. */
  lemma InsertInLineExactlyWhen(jobs: seq<Job>, inst: Instance, job: Job)
    requires InLine(jobs, inst) && job.state.Queued?
    requires !HasId(jobs, job.id) && (!inst.pc.Idle? ==> HasId(jobs, inst.pc.id))
    ensures InLine(jobs + [job], inst) <==>
      forall k :: 0 <= k < |jobs| && MayRun(jobs[k], inst) ==> jobs[k].created <= job.created
  {
    var jobs', n := jobs + [job], |jobs|;
    assert forall k :: 0 <= k < n ==> jobs'[k] == jobs[k];
    assert !MayRun(job, inst);
    if InLine(jobs', inst) {
      forall k | 0 <= k < n && MayRun(jobs[k], inst)
        ensures jobs[k].created <= job.created
      {
        assert MayRun(jobs'[k], inst) && !Terminal(jobs'[n].state);
        assert !Before(jobs', n, k);
      }
    }
    if forall k :: 0 <= k < n && MayRun(jobs[k], inst) ==> jobs[k].created <= job.created {
      forall i, k | 0 <= i < |jobs'| && 0 <= k < |jobs'| && i != k && MayRun(jobs'[k], inst)
        ensures !Active(jobs'[i].state) && (Before(jobs', i, k) ==> Terminal(jobs'[i].state))
      {
        assert k < n;
        assert Before(jobs', i, k) && i < n ==> Before(jobs, i, k);
      }
    }
  }

  /** The row an insertion appends, and where. */
  lemma InsertionIs(w: World, e: Event) returns (job: Job)
    requires Inv(w) && Inserts(w, e)
    ensures (e.Add? || e.Retry?) && IsOpen(w, e.pid)
    ensures job.state.Queued? && job.created == e.now && !HasId(w.table.jobs, job.id)
    ensures Next(w, e) == WithJobs(w, w.table.jobs + [job])
  {
    job := Next(w, e).table.jobs[|w.table.jobs|];
  }

  lemma InsertionInLineExactlyWhen(w: World, e: Event)
    requires Inv(w) && OrderInv(w) && Inserts(w, e)
    ensures OrderInv(Next(w, e)) <==> OnTime(w, e)
  {
    var job := InsertionIs(w, e);
    var jobs, inst, w' := w.table.jobs, InstanceOf(w, e.pid), Next(w, e);
    InsertInLineExactlyWhen(jobs, inst, job);
    assert forall p :: IsOpen(w, p) ==> p == e.pid;
    assert forall p :: IsOpen(w', p) <==> IsOpen(w, p);
    assert QueueOf(w', e.pid) == Queue(Table(jobs + [job], w.table.submits), inst);
    assert forall k :: 0 <= k < |jobs| ==> (MayRunIn(w, k) <==> MayRun(jobs[k], inst));
    if InLine(jobs + [job], inst) {
      StaysResting(jobs + [job], inst);
    }
  }

  lemma OpenStepInLine(w: World, e: Event)
    requires Inv(w) && OrderInv(w) && !Inserts(w, e)
    requires !e.Start? && !e.Crash? && !e.Open? && !e.CancelEnd? && IsOpen(w, e.pid)
    ensures OrderInv(OpenStep(w, e))
  {
    var q, jobs := QueueOf(w, e.pid), w.table.jobs;
    match e
    case CrashBeforeSubmit(p) => if q.inst.pc.AwaitPreflight? && !q.inst.closing { CrashBeforeSubmitInLine(q); }
    case Add(_, _, _, _) => assert OpenStep(w, e) == w;
    case Retry(_, _, _, _, _) => assert OpenStep(w, e) == w;
    case CancelBegin(p, k) =>
      if k < |jobs| {
        CancelInLine(jobs, q.inst, jobs[k].id);
        CancelInLine(jobs, RESTING, jobs[k].id);
      }
    case CloseEnd(_) =>
    case _ =>
      QueueStepInLine(q, e);
      StaysResting(QueueStep(q, e).table.jobs, QueueStep(q, e).inst);
  }

  lemma EndCancelInLine(w: World, e: Event)
    requires Inv(w) && OrderInv(w) && e.CancelEnd? && e.pid in w.procs
    ensures OrderInv(EndCancel(w, e))
  {
    var w' := EndCancel(w, e);
    assert forall p :: IsOpen(w', p) ==> IsOpen(w, p) && InstanceOf(w', p) == InstanceOf(w, p);
    if w'.table == w.table {
      assert forall p :: IsOpen(w', p) ==> QueueOf(w', p) == QueueOf(w, p);
    } else {
      CancelInLine(w.table.jobs, InstanceOf(w, e.pid), e.job);
      CancelInLine(w.table.jobs, RESTING, e.job);
    }
  }

  /** A step keeps the line exactly when it is not a late insertion. */
  lemma NextInLineExactlyWhen(w: World, e: Event)
    requires Inv(w) && OrderInv(w)
    ensures OrderInv(Next(w, e)) <==> OnTime(w, e)
  {
    if Inserts(w, e) {
      InsertionInLineExactlyWhen(w, e);
    } else if e.Start? || e.pid !in w.procs || e.Crash? {
      assert forall p :: IsOpen(Next(w, e), p) ==> IsOpen(w, p) && QueueOf(Next(w, e), p) == QueueOf(w, p);
    } else if e.Open? {
      RecoverInLine(w.table.jobs);
    } else if e.CancelEnd? {
      EndCancelInLine(w, e);
    } else if IsOpen(w, e.pid) {
      OpenStepInLine(w, e);
    }
  }

  // ----- whole runs -----

  lemma OnTimeFront(w: World, es: seq<Event>)
    requires es != [] && OnTimeRun(w, es)
    ensures OnTimeRun(w, es[..|es| - 1]) && OnTime(Run(w, es[..|es| - 1]), es[|es| - 1])
  {
    var n := |es| - 1;
    assert forall i :: 0 <= i < n ==> es[..n][..i] == es[..i];
  }

  lemma {:induction false} RunInLine(w: World, es: seq<Event>)
    requires Inv(w) && OrderInv(w) && OnTimeRun(w, es)
    ensures Inv(Run(w, es)) && OrderInv(Run(w, es))
  {
    if es != [] {
      var n := |es| - 1;
      OnTimeFront(w, es);
      RunInLine(w, es[..n]);
      NextInLineExactlyWhen(Run(w, es[..n]), es[n]);
      NextKeepsInv(Run(w, es[..n]), es[n]);
    }
  }

  lemma EmptyInLine()
    ensures Inv(NO_WORLD) && OrderInv(NO_WORLD)
  {
  }

  /** The line is kept at every point of a run exactly when every insertion in it is on time. */
  lemma RunInLineExactlyWhen(es: seq<Event>)
    ensures (forall n :: 0 <= n <= |es| ==> OrderInv(Run(NO_WORLD, es[..n]))) <==> OnTimeRun(NO_WORLD, es)
  {
    EmptyInLine();
    if OnTimeRun(NO_WORLD, es) {
      forall n | 0 <= n <= |es|
        ensures OrderInv(Run(NO_WORLD, es[..n]))
      {
        assert forall i :: 0 <= i < n ==> es[..n][..i] == es[..i];
        RunInLine(NO_WORLD, es[..n]);
      }
    }
    if forall n :: 0 <= n <= |es| ==> OrderInv(Run(NO_WORLD, es[..n])) {
      forall n | 0 <= n < |es|
        ensures OnTime(Run(NO_WORLD, es[..n]), es[n])
      {
        RunKeepsInv(es[..n]);
        NextInLineExactlyWhen(Run(NO_WORLD, es[..n]), es[n]);
        assert es[..n + 1][..n] == es[..n];
        assert Run(NO_WORLD, es[..n + 1]) == Next(Run(NO_WORLD, es[..n]), es[n]);
      }
    }
  }

  lemma OrderedMeans(w: World, i: nat, k: nat)
    requires Ordered(w) && i < |w.table.jobs| && k < |w.table.jobs| && i != k && Active(w.table.jobs[k].state)
    ensures !Active(w.table.jobs[i].state) && (Before(w.table.jobs, i, k) ==> Terminal(w.table.jobs[i].state))
  {
    assert MayRun(w.table.jobs[k], RESTING);
  }

  /** At every moment at most one job is active, and every job created before it has finished. */
  lemma OneActiveJob(es: seq<Event>, i: nat, k: nat)
    requires OnTimeRun(NO_WORLD, es)
    requires i < |Run(NO_WORLD, es).table.jobs| && k < |Run(NO_WORLD, es).table.jobs| && i != k
    requires Active(Run(NO_WORLD, es).table.jobs[k].state)
    ensures !Active(Run(NO_WORLD, es).table.jobs[i].state)
    ensures Before(Run(NO_WORLD, es).table.jobs, i, k) ==> Terminal(Run(NO_WORLD, es).table.jobs[i].state)
  {
    EmptyInLine();
    RunInLine(NO_WORLD, es);
    OrderedMeans(Run(NO_WORLD, es), i, k);
  }

  // ----- a late insertion breaks the order -----

  /** The events of a tick: nothing is inserted. */
  predicate IsReply(e: Event) {
    e.Tick? || e.WorkflowDone? || e.PreflightDone? || e.SubmitDone? || e.ShowDone? || e.GetDone?
  }

  ghost predicate Replies(es: seq<Event>) {
    forall n :: 0 <= n < |es| ==> IsReply(es[n])
  }

  lemma ReplyInsertsNothing(w: World, e: Event)
    requires IsReply(e)
    ensures |Next(w, e).table.jobs| == |w.table.jobs|
  {
  }

  lemma RepliesOnTime(w: World, es: seq<Event>)
    requires Replies(es)
    ensures OnTimeRun(w, es)
  {
    forall n | 0 <= n < |es|
      ensures OnTime(Run(w, es[..n]), es[n])
    {
      ReplyInsertsNothing(Run(w, es[..n]), es[n]);
    }
  }

  lemma RunSnoc(w: World, es: seq<Event>, e: Event)
    ensures Run(w, es + [e]) == Next(Run(w, es), e)
  {
    assert (es + [e])[..|es|] == es;
  }

  /** Row k is active although row i, created before it, is unfinished. */
  ghost predicate Overtaken(jobs: seq<Job>, i: nat, k: nat) {
    i < |jobs| && k < |jobs| && i != k && !Terminal(jobs[i].state) && Active(jobs[k].state) && Before(jobs, i, k)
  }

  /** Row i waits in front of row k, which the suspended tick of an open queue can still revive or is active. */
  ghost predicate Endangered(w: World, p: nat, i: nat, k: nat) {
    && IsOpen(w, p) && i < |w.table.jobs| && k < |w.table.jobs| && i != k
    && !Terminal(w.table.jobs[i].state) && Before(w.table.jobs, i, k) && MayRun(w.table.jobs[k], InstanceOf(w, p))
  }

  /** A reply of the suspended tick that writes an active state to its row, or leads to one. */
  function RevivingReply(p: nat, pc: Pc): Event {
    match pc
    case AwaitWorkflow(_) => WorkflowDone(p, SameDigest)
    case AwaitPreflight(_) => PreflightDone(p, Ready)
    case AwaitSubmit(_) => SubmitDone(p, TaskCreated("tsk_1"))
    case AwaitShow(_, _) => ShowDone(p, TaskOther)
    case _ => Tick(p, false)
  }

  lemma RevivingStep(w: World, p: nat, i: nat, k: nat)
    requires Inv(w) && Endangered(w, p, i, k) && !Active(w.table.jobs[k].state)
    ensures
      var pc, w' := InstanceOf(w, p).pc, Next(w, RevivingReply(p, InstanceOf(w, p).pc));
      && Inv(w') && Endangered(w', p, i, k) && IsReply(RevivingReply(p, pc))
      && w'.table.jobs[i] == w.table.jobs[i] && InstanceOf(w', p).closing == InstanceOf(w, p).closing
      && (pc.AwaitWorkflow? ==> InstanceOf(w', p) == Instance(false, AwaitPreflight(pc.id)))
      && (!pc.AwaitWorkflow? ==> Overtaken(w'.table.jobs, i, k))
  {
    var e := RevivingReply(p, InstanceOf(w, p).pc);
    NextKeepsInv(w, e);
    assert w.table.jobs[i].id != w.table.jobs[k].id;
  }

  /** A few replies make the endangered row active. */
  lemma Overtakes(w: World, p: nat, i: nat, k: nat) returns (es: seq<Event>)
    requires Inv(w) && Endangered(w, p, i, k)
    ensures Replies(es) && Inv(Run(w, es)) && IsOpen(Run(w, es), p) && Overtaken(Run(w, es).table.jobs, i, k)
    ensures Run(w, es).table.jobs[i] == w.table.jobs[i]
    ensures InstanceOf(Run(w, es), p).closing == InstanceOf(w, p).closing
  {
    es := [];
    if !Active(w.table.jobs[k].state) {
      var e := RevivingReply(p, InstanceOf(w, p).pc);
      RevivingStep(w, p, i, k);
      RunSnoc(w, [], e);
      es := [] + [e];
      var w' := Run(w, es);
      if !Active(w'.table.jobs[k].state) {
        var e' := RevivingReply(p, InstanceOf(w', p).pc);
        RevivingStep(w', p, i, k);
        RunSnoc(w, es, e');
        es := es + [e'];
      }
    }
  }

  lemma LateInsertion(w: World, e: Event) returns (k: nat)
    requires Inv(w) && OrderInv(w) && !OnTime(w, e)
    ensures Inv(Next(w, e)) && IsOpen(w, e.pid) && Endangered(Next(w, e), e.pid, |w.table.jobs|, k)
    ensures InstanceOf(Next(w, e), e.pid) == InstanceOf(w, e.pid)
    ensures Next(w, e).table.jobs[|w.table.jobs|].state.Queued?
  {
    NextKeepsInv(w, e);
    var job := InsertionIs(w, e);
    k :| 0 <= k < |w.table.jobs| && MayRunIn(w, k) && w.table.jobs[k].created > e.now;
    assert forall p :: IsOpen(w, p) ==> p == e.pid;
  }

  /**
   An insertion leaves the order safe in every later run that inserts on time, exactly when it is on time
   itself: that is, when no row that is active, or that a suspended tick can still revive, has a later stamp.
   */
  lemma InsertionSafeExactlyWhen(w: World, e: Event)
    requires Inv(w) && OrderInv(w)
    ensures (forall es :: OnTimeRun(Next(w, e), es) ==> Ordered(Run(Next(w, e), es))) <==> OnTime(w, e)
  {
    var w' := Next(w, e);
    if OnTime(w, e) {
      NextInLineExactlyWhen(w, e);
      NextKeepsInv(w, e);
      forall es | OnTimeRun(w', es)
        ensures Ordered(Run(w', es))
      {
        RunInLine(w', es);
      }
    } else {
      var k := LateInsertion(w, e);
      var es := Overtakes(w', e.pid, |w.table.jobs|, k);
      RepliesOnTime(w', es);
      if Ordered(Run(w', es)) {
        OrderedMeans(Run(w', es), |w.table.jobs|, k);
      }
    }
  }

  // ----- and puts two jobs at work -----

  ghost predicate TwoActive(w: World) {
    exists i, k :: 0 <= i < |w.table.jobs| && 0 <= k < |w.table.jobs| && i != k
      && Active(w.table.jobs[i].state) && Active(w.table.jobs[k].state)
  }

  /** Once an active row has an unfinished one before it, the next tick of an idle queue starts a second one. */
  lemma NextTickDoubles(w: World, p: nat, i: nat, k: nat)
    requires Inv(w) && IsOpen(w, p) && InstanceOf(w, p) == Instance(false, Idle) && Overtaken(w.table.jobs, i, k)
    ensures TwoActive(Next(w, Tick(p, false)))
  {
    var jobs := w.table.jobs;
    var h := Head(jobs).value;
    assert h != k;
    assert jobs[h].id != jobs[k].id;
    var jobs' := Next(w, Tick(p, false)).table.jobs;
    assert Active(jobs'[h].state) && Active(jobs'[k].state);
  }

  function Rank(pc: Pc): nat {
    match pc
    case Idle => 0
    case AwaitWorkflow(_) => 3
    case AwaitPreflight(_) => 2
    case _ => 1
  }

  /** A reply after which the tick's row, if it is the active one, still is. */
  function KeepingReply(p: nat, pc: Pc, own: bool): Event {
    if own && !pc.AwaitGet? then RevivingReply(p, pc)
    else
      match pc
      case AwaitWorkflow(_) => WorkflowDone(p, WorkflowError)
      case AwaitPreflight(_) => PreflightDone(p, NotReady)
      case AwaitSubmit(_) => SubmitDone(p, SubmitError)
      case AwaitShow(_, _) => ShowDone(p, ShowError)
      case AwaitGet(_, _) => GetDone(p, GetError)
      case Idle => Tick(p, false)
  }

  /** The queue of p is open, row k is active, and the queued row i was created before it. */
  ghost predicate Behind(w: World, p: nat, i: nat, k: nat) {
    && Inv(w) && IsOpen(w, p) && !InstanceOf(w, p).closing
    && Overtaken(w.table.jobs, i, k) && w.table.jobs[i].state.Queued?
  }

  /** A reply of a tick on row k keeps it active; one of a tick on another row leaves it alone. */
  lemma KeepingStep(q: Queue, p: nat, k: nat)
    requires QueueOk(q) && !q.inst.closing && !q.inst.pc.Idle?
    requires k < |q.table.jobs| && Active(q.table.jobs[k].state)
    ensures
      var e := KeepingReply(p, q.inst.pc, q.inst.pc.id == q.table.jobs[k].id);
      var q' := QueueStep(q, e);
      && IsReply(e) && !e.Tick? && e.pid == p && !q'.inst.closing && Rank(q'.inst.pc) < Rank(q.inst.pc)
      && RowChanged(q.table.jobs, q'.table.jobs, q.inst.pc.id) && Active(q'.table.jobs[k].state)
  {
    assert InstanceOk(q.table, q.inst.pc);
  }

  lemma SettleStep(w: World, p: nat, i: nat, k: nat)
    requires Behind(w, p, i, k) && !InstanceOf(w, p).pc.Idle?
    ensures
      var pc := InstanceOf(w, p).pc;
      var e := KeepingReply(p, pc, pc.id == w.table.jobs[k].id);
      IsReply(e) && Behind(Next(w, e), p, i, k) && Rank(InstanceOf(Next(w, e), p).pc) < Rank(pc)
  {
    var q := QueueOf(w, p);
    var e := KeepingReply(p, q.inst.pc, q.inst.pc.id == w.table.jobs[k].id);
    KeepingStep(q, p, k);
    NextKeepsInv(w, e);
    assert Next(w, e) == Put(w, p, QueueStep(q, e));
    assert InstanceOk(w.table, q.inst.pc);
    assert w.table.jobs[i].id != q.inst.pc.id;
  }

  lemma {:induction false} Settles(w: World, p: nat, i: nat, k: nat) returns (es: seq<Event>)
    requires Behind(w, p, i, k)
    ensures Replies(es) && Behind(Run(w, es), p, i, k) && InstanceOf(Run(w, es), p).pc.Idle?
    decreases Rank(InstanceOf(w, p).pc)
  {
    var pc := InstanceOf(w, p).pc;
    if pc.Idle? {
      es := [];
    } else {
      var e := KeepingReply(p, pc, pc.id == w.table.jobs[k].id);
      SettleStep(w, p, i, k);
      var rest := Settles(Next(w, e), p, i, k);
      RunCons(w, e, rest);
      es := [e] + rest;
    }
  }

  lemma {:induction false} RunCons(w: World, e: Event, es: seq<Event>)
    ensures Run(w, [e] + es) == Run(Next(w, e), es)
  {
    if es == [] {
      assert [e] + es == [] + [e];
      RunSnoc(w, [], e);
    } else {
      var n := |es| - 1;
      RunCons(w, e, es[..n]);
      assert ([e] + es)[..|[e] + es| - 1] == [e] + es[..n];
    }
  }

  lemma {:induction false} RunAppend(w: World, es: seq<Event>, more: seq<Event>)
    ensures Run(w, es + more) == Run(Run(w, es), more)
  {
    if more == [] {
      assert es + more == es;
    } else {
      var n := |more| - 1;
      RunAppend(w, es, more[..n]);
      assert (es + more)[..|es + more| - 1] == es + more[..n];
    }
  }

  /**
   After a late insertion into a queue that is not closing, some replies and a tick put two jobs at work at
   once.
   */
  lemma LateInsertionDoubles(w: World, e: Event) returns (es: seq<Event>)
    requires Inv(w) && OrderInv(w) && !OnTime(w, e) && IsOpen(w, e.pid) && !InstanceOf(w, e.pid).closing
    ensures Replies(es) && TwoActive(Run(Next(w, e), es))
  {
    var w', i := Next(w, e), |w.table.jobs|;
    var k := LateInsertion(w, e);
    var first := Overtakes(w', e.pid, i, k);
    var rest := Settles(Run(w', first), e.pid, i, k);
    RunAppend(w', first, rest);
    var idle := Run(w', first + rest);
    NextTickDoubles(idle, e.pid, i, k);
    RunSnoc(w', first + rest, Tick(e.pid, false));
    es := first + rest + [Tick(e.pid, false)];
  }
}
