/**
 The cap of 100 unfinished jobs in the Toonflow queue: which steps can pass it, and two runs that do.
 */
module QueueCap {
  import opened QueueModel
  import opened QueueRuns
  import opened QueueOrder
  import opened QueueCancel

  // ----- counting -----

  lemma {:induction false} NoneRevived(jobs: seq<Job>, jobs': seq<Job>)
    requires |jobs'| == |jobs|
    requires forall k :: 0 <= k < |jobs| && Terminal(jobs[k].state) ==> Terminal(jobs'[k].state)
    ensures Unfinished(jobs') <= Unfinished(jobs)
  {
    if jobs != [] {
      var n := |jobs| - 1;
      NoneRevived(jobs[..n], jobs'[..n]);
    }
  }

  lemma {:induction false} OneRevived(jobs: seq<Job>, jobs': seq<Job>, k: nat)
    requires |jobs'| == |jobs| && k < |jobs| && Terminal(jobs[k].state) && !Terminal(jobs'[k].state)
    requires forall i :: 0 <= i < |jobs| && i != k ==> (Terminal(jobs[i].state) <==> Terminal(jobs'[i].state))
    ensures Unfinished(jobs') == Unfinished(jobs) + 1
  {
    var n := |jobs| - 1;
    if k == n {
      NoneRevived(jobs[..n], jobs'[..n]);
      NoneRevived(jobs'[..n], jobs[..n]);
    } else {
      OneRevived(jobs[..n], jobs'[..n], k);
    }
  }

  lemma OneAdded(jobs: seq<Job>, job: Job)
    requires !Terminal(job.state)
    ensures Unfinished(jobs + [job]) == Unfinished(jobs) + 1
  {
    assert (jobs + [job])[..|jobs|] == jobs;
  }

  // ----- one step -----

  /** add never takes the queue past its cap; an inserted job is one more unfinished row. */
  lemma AddKeepsCap(jobs: seq<Job>, request: Request, id: JobId, now: int)
    requires Unfinished(jobs) <= MAX_OPEN_JOBS
    ensures Unfinished(AddJob(jobs, request, id, now)) <= MAX_OPEN_JOBS
    ensures AddJob(jobs, request, id, now) != jobs <==> AddAnswers(jobs, request, id, Inserted)
  {
    var r := AddJob(jobs, request, id, now);
    if r != jobs {
      assert r[..|jobs|] == jobs;
    }
  }

  /** A retry that inserts adds an unfinished row however full the queue already is. */
  lemma RetryIgnoresCap(jobs: seq<Job>, k: nat, id: JobId, suffix: string, now: int)
    requires k < |jobs| && (jobs[k].state.Failed? || jobs[k].state.Cancelled?)
    requires !HasId(jobs, id) && !HasRequestId(jobs, RetryRequest(jobs[k].request, suffix).requestId)
    ensures Unfinished(RetryJob(jobs, k, id, suffix, now)) == Unfinished(jobs) + 1
  {
    assert RetryJob(jobs, k, id, suffix, now)[..|jobs|] == jobs;
  }

  /** The reply of the suspended tick writes an unfinished state over a row that was cancelled meanwhile. */
  ghost predicate RevivesCancelled(w: World, e: Event) {
    && !e.Start? && IsOpen(w, e.pid) && Revives(InstanceOf(w, e.pid), e)
    && exists k :: 0 <= k < |w.table.jobs| && w.table.jobs[k].id == InstanceOf(w, e.pid).pc.id
                && Terminal(w.table.jobs[k].state)
  }

  /** The two steps that add an unfinished job without counting. */
  ghost predicate Uncounted(w: World, e: Event) {
    (e.Retry? && Inserts(w, e)) || RevivesCancelled(w, e)
  }

  lemma InsertionCounts(w: World, e: Event)
    requires Inv(w) && Inserts(w, e)
    ensures Unfinished(Next(w, e).table.jobs) == Unfinished(w.table.jobs) + 1
    ensures e.Add? ==> Unfinished(w.table.jobs) < MAX_OPEN_JOBS
    ensures !RevivesCancelled(w, e)
  {
    var job := InsertionIs(w, e);
    OneAdded(w.table.jobs, job);
  }

  lemma RevivalCounts(w: World, e: Event)
    requires Inv(w) && RevivesCancelled(w, e)
    ensures Unfinished(Next(w, e).table.jobs) == Unfinished(w.table.jobs) + 1
  {
    var jobs, jobs', id := w.table.jobs, Next(w, e).table.jobs, InstanceOf(w, e.pid).pc.id;
    var k :| 0 <= k < |jobs| && jobs[k].id == id && Terminal(jobs[k].state);
    RevivedExactlyWhen(w, e, k);
    forall i | 0 <= i < |jobs| && i != k
      ensures i < |jobs'| && jobs'[i].state == jobs[i].state
    {
      assert jobs[i].id != id;
    }
    assert |jobs'| == |jobs|;
    OneRevived(jobs, jobs', k);
  }

  lemma OtherCounts(w: World, e: Event)
    requires Inv(w) && !Inserts(w, e) && !RevivesCancelled(w, e)
    ensures Unfinished(Next(w, e).table.jobs) <= Unfinished(w.table.jobs)
  {
    var jobs, jobs' := w.table.jobs, Next(w, e).table.jobs;
    NeverShorter(w, e);
    forall k | 0 <= k < |jobs| && Terminal(jobs[k].state)
      ensures Terminal(jobs'[k].state)
    {
      RevivedExactlyWhen(w, e, k);
    }
    NoneRevived(jobs, jobs');
  }

  lemma NeverShorter(w: World, e: Event)
    ensures |Next(w, e).table.jobs| >= |w.table.jobs|
  {
  }

  /** A step takes the queue past its cap exactly when it was full and the step is one of the two that do not count. */
  lemma CapPassedExactlyWhen(w: World, e: Event)
    requires Inv(w) && Unfinished(w.table.jobs) <= MAX_OPEN_JOBS
    ensures Unfinished(Next(w, e).table.jobs) > MAX_OPEN_JOBS <==>
      Unfinished(w.table.jobs) == MAX_OPEN_JOBS && Uncounted(w, e)
  {
    if Inserts(w, e) {
      var job := InsertionIs(w, e);
      InsertionCounts(w, e);
    } else if RevivesCancelled(w, e) {
      RevivalCounts(w, e);
    } else {
      OtherCounts(w, e);
    }
  }

  // ----- whole runs -----

  ghost predicate WithinCap(es: seq<Event>) {
    forall n :: 0 <= n <= |es| ==> Unfinished(Run(NO_WORLD, es[..n]).table.jobs) <= MAX_OPEN_JOBS
  }

  /** No uncounted step is taken while the queue is full. */
  ghost predicate NeverUncountedWhenFull(es: seq<Event>) {
    forall n :: 0 <= n < |es| && Unfinished(Run(NO_WORLD, es[..n]).table.jobs) == MAX_OPEN_JOBS ==>
      !Uncounted(Run(NO_WORLD, es[..n]), es[n])
  }

  lemma RunPrefix(es: seq<Event>, n: nat)
    requires n < |es|
    ensures Run(NO_WORLD, es[..n + 1]) == Next(Run(NO_WORLD, es[..n]), es[n])
  {
    assert es[..n + 1][..n] == es[..n];
  }

  lemma {:induction false} CapKept(es: seq<Event>, n: nat)
    requires n <= |es| && NeverUncountedWhenFull(es)
    ensures Unfinished(Run(NO_WORLD, es[..n]).table.jobs) <= MAX_OPEN_JOBS
  {
    if n > 0 {
      CapKept(es, n - 1);
      RunKeepsInv(es[..n - 1]);
      CapPassedExactlyWhen(Run(NO_WORLD, es[..n - 1]), es[n - 1]);
      RunPrefix(es, n - 1);
    }
  }

  /** A run stays within 100 unfinished jobs at every point exactly when it takes no uncounted step while full. */
  lemma RunWithinCapExactlyWhen(es: seq<Event>)
    ensures WithinCap(es) <==> NeverUncountedWhenFull(es)
  {
    if NeverUncountedWhenFull(es) {
      forall n | 0 <= n <= |es|
        ensures Unfinished(Run(NO_WORLD, es[..n]).table.jobs) <= MAX_OPEN_JOBS
      {
        CapKept(es, n);
      }
    }
    if WithinCap(es) {
      forall n | 0 <= n < |es| && Unfinished(Run(NO_WORLD, es[..n]).table.jobs) == MAX_OPEN_JOBS
        ensures !Uncounted(Run(NO_WORLD, es[..n]), es[n])
      {
        RunKeepsInv(es[..n]);
        CapPassedExactlyWhen(Run(NO_WORLD, es[..n]), es[n]);
        RunPrefix(es, n);
        assert Unfinished(Run(NO_WORLD, es[..n + 1]).table.jobs) <= MAX_OPEN_JOBS;
      }
    }
  }

  // ----- two runs past the cap -----

  function Strokes(n: nat): (s: string)
    ensures |s| == n
  {
    if n == 0 then "" else Strokes(n - 1) + "u"
  }

  function FillRequest(a: Request, i: nat): Request {
    a.(requestId := a.requestId + Strokes(i + 1))
  }

  function FillId(i: nat): JobId {
    "A" + Strokes(i + 1)
  }

  function FillJob(a: Request, i: nat): Job {
    NewJob(FillId(i), Sha256(FillRequest(a, i)), FillRequest(a, i), 10)
  }

  function FillEvent(a: Request, i: nat): Event {
    Add(1, FillRequest(a, i), FillId(i), 10)
  }

  /** n more jobs, each with a request id of its own. */
  function Filling(a: Request, n: nat): seq<Event> {
    if n == 0 then [] else Filling(a, n - 1) + [FillEvent(a, n - 1)]
  }

  function Filled(a: Request, first: Job, n: nat): seq<Job> {
    if n == 0 then [first] else Filled(a, first, n - 1) + [FillJob(a, n - 1)]
  }

  lemma {:induction false} FilledRows(a: Request, first: Job, n: nat)
    ensures |Filled(a, first, n)| == n + 1 && Filled(a, first, n)[0] == first
    ensures forall i :: 1 <= i <= n ==> Filled(a, first, n)[i] == FillJob(a, i - 1)
  {
    if n > 0 {
      FilledRows(a, first, n - 1);
    }
  }

  lemma {:induction false} FilledCount(a: Request, first: Job, n: nat)
    requires Terminal(first.state)
    ensures Unfinished(Filled(a, first, n)) == n
  {
    if n == 0 {
      assert [first][..0] == [];
    } else {
      FilledCount(a, first, n - 1);
      OneAdded(Filled(a, first, n - 1), FillJob(a, n - 1));
    }
  }

  lemma FillIsNew(a: Request, first: Job, n: nat)
    requires first.id == "A" && first.request.requestId == a.requestId && Terminal(first.state)
    ensures !HasRequestId(Filled(a, first, n), FillRequest(a, n).requestId) && !HasId(Filled(a, first, n), FillId(n))
  {
    FilledRows(a, first, n);
    var jobs := Filled(a, first, n);
    forall i | 0 <= i < |jobs|
      ensures jobs[i].request.requestId != FillRequest(a, n).requestId && jobs[i].id != FillId(n)
    {
      if i > 0 {
        assert jobs[i] == FillJob(a, i - 1);
      }
      assert |jobs[i].request.requestId| == |a.requestId| + i && |jobs[i].id| == 1 + i;
    }
  }

  function FullQueue(a: Request, first: Job, pc: Pc, n: nat): Queue {
    Queue(Table(Filled(a, first, n), []), Instance(false, pc))
  }

  lemma SoloAdd(q: Queue, request: Request, id: JobId, now: int)
    requires !HasRequestId(q.table.jobs, request.requestId) && !HasId(q.table.jobs, id)
    requires Unfinished(q.table.jobs) < MAX_OPEN_JOBS
    ensures Next(Solo(q), Add(1, request, id, now)) ==
      Solo(q.(table := q.table.(jobs := q.table.jobs + [NewJob(id, Sha256(request), request, now)])))
  {
  }

  lemma SoloRetry(q: Queue, id: JobId, suffix: string, now: int)
    requires q.table.jobs != [] && q.table.jobs[0].state.Cancelled? && !HasId(q.table.jobs, id)
    requires !HasRequestId(q.table.jobs, RetryRequest(q.table.jobs[0].request, suffix).requestId)
    ensures Inserts(Solo(q), Retry(1, 0, id, suffix, now))
  {
  }

  lemma FillStep(a: Request, first: Job, pc: Pc, n: nat)
    requires first.id == "A" && first.request.requestId == a.requestId && Terminal(first.state) && n < MAX_OPEN_JOBS
    ensures Next(Solo(FullQueue(a, first, pc, n)), FillEvent(a, n)) == Solo(FullQueue(a, first, pc, n + 1))
  {
    FillIsNew(a, first, n);
    FilledCount(a, first, n);
    SoloAdd(FullQueue(a, first, pc, n), FillRequest(a, n), FillId(n), 10);
  }

  lemma {:induction false} Fills(w: World, a: Request, first: Job, pc: Pc, n: nat)
    requires first.id == "A" && first.request.requestId == a.requestId && Terminal(first.state) && n <= MAX_OPEN_JOBS
    requires w == Solo(FullQueue(a, first, pc, 0))
    ensures Run(w, Filling(a, n)) == Solo(FullQueue(a, first, pc, n))
  {
    if n > 0 {
      Fills(w, a, first, pc, n - 1);
      FillStep(a, first, pc, n - 1);
      RunSnoc(w, Filling(a, n - 1), FillEvent(a, n - 1));
    }
  }

  /** The first job cancelled during its preflight. */
  function CancelledJob(a: Request): Job {
    NewJob("A", Sha256(a), a, 10).(state := Cancelled)
  }

  function CancelledRun(a: Request): seq<Event> {
    CheckingRun(a) + [CancelBegin(1, 0)]
  }

  lemma FullWorld(a: Request)
    requires !a.pinned
    ensures Run(NO_WORLD, CancelledRun(a) + Filling(a, MAX_OPEN_JOBS)) ==
      Solo(FullQueue(a, CancelledJob(a), AwaitPreflight("A"), MAX_OPEN_JOBS))
    ensures Unfinished(Filled(a, CancelledJob(a), MAX_OPEN_JOBS)) == MAX_OPEN_JOBS
  {
    CancelledWorld(a);
    assert FullQueue(a, CancelledJob(a), AwaitPreflight("A"), 0) == Single(CancelledJob(a), [], AwaitPreflight("A"));
    RunAppend(NO_WORLD, CancelledRun(a), Filling(a, MAX_OPEN_JOBS));
    Fills(Run(NO_WORLD, CancelledRun(a)), a, CancelledJob(a), AwaitPreflight("A"), MAX_OPEN_JOBS);
    FilledCount(a, CancelledJob(a), MAX_OPEN_JOBS);
  }

  /** A cancelled job whose preflight answers after the queue was filled makes 101 unfinished jobs. */
  lemma RevivalPassesCap(a: Request)
    requires !a.pinned
    ensures
      var es := CancelledRun(a) + Filling(a, MAX_OPEN_JOBS);
      && Unfinished(Run(NO_WORLD, es).table.jobs) == MAX_OPEN_JOBS
      && Unfinished(Run(NO_WORLD, es + [PreflightDone(1, Ready)]).table.jobs) == MAX_OPEN_JOBS + 1
  {
    var es := CancelledRun(a) + Filling(a, MAX_OPEN_JOBS);
    FullWorld(a);
    FilledRows(a, CancelledJob(a), MAX_OPEN_JOBS);
    RunKeepsInv(es);
    RunSnoc(NO_WORLD, es, PreflightDone(1, Ready));
    var w := Run(NO_WORLD, es);
    assert w.table.jobs[0] == CancelledJob(a);
    RevivalCounts(w, PreflightDone(1, Ready));
  }

  /** A retry of the cancelled job of a full queue makes 101 unfinished jobs. */
  lemma RetryPassesCap(a: Request)
    requires !a.pinned
    ensures
      var es := CancelledRun(a) + Filling(a, MAX_OPEN_JOBS);
      && Unfinished(Run(NO_WORLD, es).table.jobs) == MAX_OPEN_JOBS
      && Unfinished(Run(NO_WORLD, es + [Retry(1, 0, "B", "r", 10)]).table.jobs) == MAX_OPEN_JOBS + 1
  {
    var es, e := CancelledRun(a) + Filling(a, MAX_OPEN_JOBS), Retry(1, 0, "B", "r", 10);
    FullWorld(a);
    RunKeepsInv(es);
    RunSnoc(NO_WORLD, es, e);
    RetryIsNew(a, MAX_OPEN_JOBS);
    SoloRetry(FullQueue(a, CancelledJob(a), AwaitPreflight("A"), MAX_OPEN_JOBS), "B", "r", 10);
    InsertionCounts(Run(NO_WORLD, es), e);
  }

  lemma RetryIsNew(a: Request, n: nat)
    ensures
      var jobs := Filled(a, CancelledJob(a), n);
      && jobs != [] && jobs[0] == CancelledJob(a)
      && !HasId(jobs, "B") && !HasRequestId(jobs, RetryRequest(a, "r").requestId)
  {
    var jobs := Filled(a, CancelledJob(a), n);
    FilledRows(a, CancelledJob(a), n);
    forall i | 0 <= i < |jobs|
      ensures jobs[i].id != "B" && jobs[i].request.requestId != RetryRequest(a, "r").requestId
    {
      if i > 0 {
        assert jobs[i] == FillJob(a, i - 1);
        assert jobs[i].id[0] == 'A';
        StrokesAre(i, 0);
        assert jobs[i].request.requestId[|a.requestId|] == Strokes(i)[0];
        assert RetryRequest(a, "r").requestId[|a.requestId|] == ':';
      }
    }
  }

  lemma {:induction false} StrokesAre(n: nat, k: nat)
    requires k < n
    ensures Strokes(n)[k] == 'u'
  {
    if k < n - 1 {
      StrokesAre(n - 1, k);
    }
  }
}
