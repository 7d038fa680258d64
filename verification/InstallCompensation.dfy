/**
 The compensation of a failed workflow install: _apply_workflow_install, _apply_model_install,
 _maintenance_intent_owns_job and _attempt_workflow_install_rollback in src/vgen/cli/main.py.

 Every call into the Gateway, the Worker or the file system is a reply of the script, which may be any
 value or any exception.
 */
module InstallCompensation {
  import opened Common

  /** What is raised: an interrupt is a BaseException that is not an Exception. */
  datatype Error = Ordinary | IncompleteClosure | Interrupt

  datatype Step<+T> = Value(value: T) | Throws(error: Error)

  datatype Check = Done | Raises(error: Error)

  datatype Disposition = Created | Deduplicated | OtherDisposition
  datatype Owns = Flag(value: bool) | NotAFlag

  datatype Job = Job(id: string, disposition: Option<Disposition>, owns: Option<Owns>)

  /** The answer to a create request; an answer without an id is refused by the caller. */
  datatype CreateReply = Malformed | Answer(job: Job)

  /** _maintenance_intent_owns_job: None is the exception for contradictory metadata. */
  function IntentOwnsJob(j: Job): Option<bool> {
    if j.disposition.None? && j.owns.None? then Some(false)
    else if
      || j.disposition.None? || j.disposition.value.OtherDisposition?
      || j.owns.None? || j.owns.value.NotAFlag?
      || j.owns.value.value != j.disposition.value.Created?
    then None
    else Some(j.owns.value.value)
  }

  /** The creation reply says outright that this intent created the job. */
  predicate CreatedByThisIntent(j: Job) {
    j.disposition == Some(Created) && j.owns == Some(Flag(true))
  }

  lemma OwnershipIsExplicit(j: Job)
    ensures IntentOwnsJob(j) == Some(true) <==> CreatedByThisIntent(j)
    ensures IntentOwnsJob(j) == Some(false) <==>
      || (j.disposition.None? && j.owns.None?)
      || (j.disposition == Some(Deduplicated) && j.owns == Some(Flag(false)))
  {
    if j.owns.Some? && j.owns.value.Flag? && j.owns.value.value {
      assert j.owns == Some(Flag(true));
    }
    if j.owns.Some? && j.owns.value.Flag? && !j.owns.value.value {
      assert j.owns == Some(Flag(false));
    }
  }

  /** The ids of the jobs this intent created, in the order of their creation. */
  function Owned(jobs: seq<Job>): seq<string> {
    if jobs == [] then []
    else Owned(jobs[..|jobs| - 1]) + if CreatedByThisIntent(jobs[|jobs| - 1]) then [jobs[|jobs| - 1].id] else []
  }

  /** dict.fromkeys: every element once, where it first occurs. */
  function Distinct(ids: seq<string>): seq<string> {
    if ids == [] then []
    else
      var rest := Distinct(ids[..|ids| - 1]);
      if ids[|ids| - 1] in ids[..|ids| - 1] then rest else rest + [ids[|ids| - 1]]
  }

  lemma {:induction false} DistinctOnce(ids: seq<string>)
    ensures forall id :: multiset(Distinct(ids))[id] == if id in ids then 1 else 0
  {
    if ids != [] {
      var front := ids[..|ids| - 1];
      DistinctOnce(front);
      assert ids == front + [ids[|ids| - 1]];
      if ids[|ids| - 1] !in front {
        assert multiset(Distinct(ids)) == multiset(Distinct(front)) + multiset{ids[|ids| - 1]};
      }
    }
  }

  lemma {:induction false} OwnedAre(jobs: seq<Job>, id: string)
    ensures id in Owned(jobs) <==> exists j :: j in jobs && CreatedByThisIntent(j) && j.id == id
  {
    if jobs != [] {
      var last := jobs[|jobs| - 1];
      OwnedAre(jobs[..|jobs| - 1], id);
      assert jobs == jobs[..|jobs| - 1] + [last];
      if CreatedByThisIntent(last) && last.id == id {
        assert last in jobs;
      }
    }
  }

  /** Whether a raised error starts the rollback: every Exception does, save one kept on purpose. */
  predicate Compensates(alreadyActive: bool, e: Error) {
    e.Ordinary? || (e.IncompleteClosure? && alreadyActive)
  }

  /** The revocations requested: the loop passes over failures and stops only when interrupted. */
  function Requested(sources: seq<string>, deactivate: string -> Check): seq<string> {
    if sources == [] then []
    else if deactivate(sources[0]) == Raises(Interrupt) then [sources[0]]
    else [sources[0]] + Requested(sources[1..], deactivate)
  }

  /** The loop ends normally unless one of its requests is interrupted. */
  predicate RollbackInterrupted(sources: seq<string>, deactivate: string -> Check) {
    sources != [] && (deactivate(sources[0]) == Raises(Interrupt) || RollbackInterrupted(sources[1..], deactivate))
  }

  lemma {:induction false} RequestedAll(sources: seq<string>, deactivate: string -> Check)
    requires forall id :: deactivate(id) != Raises(Interrupt)
    ensures Requested(sources, deactivate) == sources && !RollbackInterrupted(sources, deactivate)
  {
    if sources != [] {
      RequestedAll(sources[1..], deactivate);
    }
  }

  // ----- the replies of one install -----

  datatype Ticket = HasTicket | NoTicket(activeState: bool)

  datatype CapabilityScript = CapabilityScript(
    archive: Check, create: Step<CreateReply>, ticket: Ticket, upload: Check, commit: Check, finish: Check)

  datatype ModelScript = ModelScript(missing: Step<bool>, create: Step<CreateReply>, finish: Check)

  datatype Script = Script(
    alreadyActive: Step<bool>, approval: Check, capability: CapabilityScript, report: Check,
    model: ModelScript, wait: bool, ready: Check, deactivate: string -> Check)

  datatype Outcome = Installed | Failed(error: Error)

  // ----- the effect of an install -----

  /** What some remote calls raise, and the jobs the Gateway answered their create requests with. */
  datatype Effect = Effect(result: Check, answered: seq<Job>)

  function Call(result: Check): Effect {
    Effect(result, [])
  }

  /** The second part runs only when the first did not raise. */
  function Then(a: Effect, b: Effect): Effect {
    if a.result.Raises? then a else Effect(b.result, a.answered + b.answered)
  }

  lemma ThenInOrder(before: seq<Job>, a: Effect, b: Effect)
    ensures before + Then(a, b).answered ==
      if a.result.Raises? then before + a.answered else before + a.answered + b.answered
  {
  }

  /** A job is answered even when its ownership metadata is then refused. */
  function Create(reply: Step<CreateReply>): Effect {
    if reply.Throws? then Call(Raises(reply.error))
    else if reply.value.Malformed? then Call(Raises(Ordinary))
    else Effect(if IntentOwnsJob(reply.value.job).Some? then Done else Raises(Ordinary), [reply.value.job])
  }

  function Upload(s: CapabilityScript): Check {
    match s.ticket
    case HasTicket => if s.upload.Raises? then s.upload else s.commit
    case NoTicket(activeState) => if activeState then Done else Raises(Ordinary)
  }

  function CapabilityEffect(s: CapabilityScript): Effect {
    Then(Call(s.archive), Then(Create(s.create), Then(Call(Upload(s)), Call(s.finish))))
  }

  function ModelEffect(s: ModelScript, wait: bool): Effect {
    if s.missing.Throws? then Call(Raises(s.missing.error))
    else if !s.missing.value then Call(Done)
    else Then(Create(s.create), Call(if wait then s.finish else Done))
  }

  /** The exact package is activated first, unless the Worker already reports it. */
  function ActivationEffect(s: Script, alreadyActive: bool): Effect {
    if alreadyActive then Call(Done) else Then(CapabilityEffect(s.capability), Call(s.report))
  }

  function ReadinessEffect(s: Script): Effect {
    Then(ModelEffect(s.model, s.wait), Call(if s.wait then s.ready else Done))
  }

  function AttemptEffect(s: Script, alreadyActive: bool): Effect {
    Then(ActivationEffect(s, alreadyActive), ReadinessEffect(s))
  }

  /** Whether and with what error the install fails, before any rollback. */
  function Attempted(s: Script): Check {
    if s.alreadyActive.Throws? then Raises(s.alreadyActive.error)
    else if !s.alreadyActive.value && s.approval.Raises? then s.approval
    else AttemptEffect(s, s.alreadyActive.value).result
  }

  /** The jobs the Gateway answered this install with. */
  function AnsweredJobs(s: Script): seq<Job> {
    if s.alreadyActive.Throws? || (!s.alreadyActive.value && s.approval.Raises?) then []
    else AttemptEffect(s, s.alreadyActive.value).answered
  }

  /** The revocations one install requests. */
  function Revocations(s: Script): seq<string> {
    if Attempted(s).Raises? && Compensates(s.alreadyActive == Value(true), Attempted(s).error)
    then Requested(Distinct(Owned(AnsweredJobs(s))), s.deactivate)
    else []
  }

  /** What the install raises in the end: an interrupt of the rollback takes the place of the first error. */
  function Raised(s: Script): Error
    requires Attempted(s).Raises?
  {
    if
      && Compensates(s.alreadyActive == Value(true), Attempted(s).error)
      && RollbackInterrupted(Distinct(Owned(AnsweredJobs(s))), s.deactivate)
    then Interrupt
    else Attempted(s).error
  }

  // ----- what an install needs -----

  /** The ownership metadata of a job is consistent: absent, or created and owned, or deduplicated and not owned. */
  predicate Consistent(j: Job) {
    || (j.disposition == None && j.owns == None)
    || (j.disposition == Some(Created) && j.owns == Some(Flag(true)))
    || (j.disposition == Some(Deduplicated) && j.owns == Some(Flag(false)))
  }

  /** The job a create request is answered with. */
  function JobIn(reply: Step<CreateReply>): Option<Job> {
    if reply.Value? && reply.value.Answer? then Some(reply.value.job) else None
  }

  predicate GoodCreate(reply: Step<CreateReply>) {
    JobIn(reply).Some? && Consistent(JobIn(reply).value)
  }

  /** The package is there: the Worker reports it, or every step that activates it goes through. */
  predicate Activated(s: Script) {
    && s.alreadyActive.Value?
    && (!s.alreadyActive.value ==>
         && s.approval.Done? && s.capability.archive.Done? && GoodCreate(s.capability.create)
         && (s.capability.ticket.HasTicket? ==> s.capability.upload.Done? && s.capability.commit.Done?)
         && (s.capability.ticket.NoTicket? ==> s.capability.ticket.activeState)
         && s.capability.finish.Done? && s.report.Done?)
  }

  /** Missing models are asked for, and waited for when the caller waits. */
  predicate ModelsReady(s: Script) {
    && s.model.missing.Value?
    && (s.model.missing.value ==> GoodCreate(s.model.create) && (s.wait ==> s.model.finish.Done?))
  }

  predicate Succeeds(s: Script) {
    Activated(s) && ModelsReady(s) && (s.wait ==> s.ready.Done?)
  }

  /** The job of the package, when its creation is reached. */
  function CapabilityJob(s: Script): seq<Job> {
    var job := JobIn(s.capability.create);
    if s.alreadyActive == Value(false) && s.approval.Done? && s.capability.archive.Done? && job.Some?
    then [job.value] else []
  }

  /** The job of the models, when its creation is reached: only with the package there, and models missing. */
  function ModelJob(s: Script): seq<Job> {
    var job := JobIn(s.model.create);
    if Activated(s) && s.model.missing == Value(true) && job.Some? then [job.value] else []
  }

  lemma CreateIs(reply: Step<CreateReply>)
    ensures Create(reply).result == CreateCheck(reply)
    ensures Create(reply).answered == if JobIn(reply).Some? then [JobIn(reply).value] else []
  {
    if JobIn(reply).Some? {
      OwnershipIsExplicit(JobIn(reply).value);
    }
  }

  lemma ActivationIs(s: Script)
    requires s.alreadyActive == Value(false) && s.approval.Done?
    ensures ActivationEffect(s, false).result.Done? <==> Activated(s)
    ensures ActivationEffect(s, false).answered == CapabilityJob(s)
  {
    CreateIs(s.capability.create);
  }

  lemma ReadinessIs(s: Script)
    ensures ReadinessEffect(s).result.Done? <==> ModelsReady(s) && (s.wait ==> s.ready.Done?)
    ensures ReadinessEffect(s).answered ==
      if s.model.missing == Value(true) && JobIn(s.model.create).Some? then [JobIn(s.model.create).value] else []
  {
    CreateIs(s.model.create);
  }

  /** An install goes through exactly when nothing it needs is refused, and whether or not, these jobs exist. */
  lemma SucceedsExactlyWhen(s: Script)
    ensures Attempted(s).Done? <==> Succeeds(s)
    ensures AnsweredJobs(s) == CapabilityJob(s) + ModelJob(s)
  {
    ReadinessIs(s);
    if s.alreadyActive == Value(false) && s.approval.Done? {
      ActivationIs(s);
    }
  }

  // ----- and which error it fails with -----

  function AsCheck<T>(r: Step<T>): Check {
    if r.Throws? then Raises(r.error) else Done
  }

  function CreateCheck(r: Step<CreateReply>): Check {
    if r.Throws? then Raises(r.error) else if GoodCreate(r) then Done else Raises(Ordinary)
  }

  /** What an activation asks, in order, as long as nothing raises. */
  function ActivationAsks(s: Script): seq<Check> {
    var c := s.capability;
    var upload :=
      if c.ticket.HasTicket? then [c.upload, c.commit]
      else if c.ticket.activeState then [] else [Raises(Ordinary)];
    [s.approval, c.archive, CreateCheck(c.create)] + upload + [c.finish, s.report]
  }

  function ReadinessAsks(s: Script): seq<Check> {
    [AsCheck(s.model.missing)]
    + (if s.model.missing == Value(true) then [CreateCheck(s.model.create)] else [])
    + (if s.model.missing == Value(true) && s.wait then [s.model.finish] else [])
    + if s.wait then [s.ready] else []
  }

  function Asks(s: Script): seq<Check> {
    [AsCheck(s.alreadyActive)] + (if s.alreadyActive == Value(false) then ActivationAsks(s) else []) + ReadinessAsks(s)
  }

  function FirstRaised(cs: seq<Check>): Check {
    if cs == [] then Done else if cs[0].Raises? then cs[0] else FirstRaised(cs[1..])
  }

  lemma {:induction false} FirstOf(a: seq<Check>, b: seq<Check>)
    ensures FirstRaised(a + b) == if FirstRaised(a).Raises? then FirstRaised(a) else FirstRaised(b)
  {
    if a == [] {
      assert a + b == b;
    } else {
      assert (a + b)[1..] == a[1..] + b;
      FirstOf(a[1..], b);
    }
  }

  lemma FirstTwo(a: Check, b: Check)
    ensures FirstRaised([a]) == a && FirstRaised([a, b]) == if a.Raises? then a else b
  {
    assert [a][1..] == [] && [a, b][1..] == [b] && [b][1..] == [];
  }

  lemma FirstThree(a: Check, b: Check, c: Check)
    ensures FirstRaised([a, b, c]) == if a.Raises? then a else if b.Raises? then b else c
  {
    assert [a, b, c][1..] == [b, c];
    FirstTwo(b, c);
  }

  lemma ActivationFails(s: Script)
    ensures FirstRaised(ActivationAsks(s)) ==
      if s.approval.Raises? then s.approval else ActivationEffect(s, false).result
  {
    var c := s.capability;
    var start, upload, end := [s.approval, c.archive, CreateCheck(c.create)],
      (if c.ticket.HasTicket? then [c.upload, c.commit] else if c.ticket.activeState then [] else [Raises(Ordinary)]),
      [c.finish, s.report];
    CreateIs(c.create);
    FirstOf(start + upload, end);
    FirstOf(start, upload);
    FirstThree(s.approval, c.archive, CreateCheck(c.create));
    FirstTwo(c.upload, c.commit);
    FirstTwo(Raises(Ordinary), Done);
    FirstTwo(c.finish, s.report);
  }

  lemma ReadinessFails(s: Script)
    ensures FirstRaised(ReadinessAsks(s)) == ReadinessEffect(s).result
  {
    var a, b, c, d := [AsCheck(s.model.missing)],
      (if s.model.missing == Value(true) then [CreateCheck(s.model.create)] else []),
      (if s.model.missing == Value(true) && s.wait then [s.model.finish] else []),
      (if s.wait then [s.ready] else []);
    CreateIs(s.model.create);
    FirstOf(a + b + c, d);
    FirstOf(a + b, c);
    FirstOf(a, b);
    FirstTwo(AsCheck(s.model.missing), Done);
    FirstTwo(CreateCheck(s.model.create), Done);
    FirstTwo(s.model.finish, Done);
    FirstTwo(s.ready, Done);
  }

  /** The install fails with the first error that is raised, in the order in which things are asked. */
  lemma FailsWithTheFirst(s: Script)
    ensures Attempted(s) == FirstRaised(Asks(s))
  {
    var a, b := [AsCheck(s.alreadyActive)], if s.alreadyActive == Value(false) then ActivationAsks(s) else [];
    FirstOf(a + b, ReadinessAsks(s));
    FirstOf(a, b);
    FirstTwo(AsCheck(s.alreadyActive), Done);
    ActivationFails(s);
    ReadinessFails(s);
  }

  class Installer {
    // Answers to this install's create requests, as the Gateway gave them.
    ghost var created: seq<Job>
    // rollback_source_ids
    var sources: seq<string>
    // Revocations requested by this client so far.
    var revoked: seq<string>

    constructor ()
      ensures created == [] && sources == [] && revoked == []
    {
      created, sources, revoked := [], [], [];
    }

    ghost predicate Valid()
      reads this
    {
      sources == Owned(created)
    }

    /** _create_maintenance_job, and the ownership check that follows it. */
    method CreateJob(reply: Step<CreateReply>) returns (r: Check)
      requires Valid()
      modifies this`created, this`sources
      ensures Valid() && created == old(created) + Create(reply).answered
      ensures r == Create(reply).result
    {
      if reply.Throws? {
        return Raises(reply.error);
      }
      if reply.value.Malformed? {
        return Raises(Ordinary);
      }
      var job := reply.value.job;
      OwnershipIsExplicit(job);
      created := created + [job];
      assert created[..|created| - 1] == old(created);
      var owns := IntentOwnsJob(job);
      if owns.None? {
        return Raises(Ordinary);
      }
      if owns.value {
        sources := sources + [job.id];
      }
      return Done;
    }

    /** _apply_model_install. */
    method InstallModels(s: ModelScript, wait: bool) returns (r: Check)
      requires Valid()
      modifies this`created, this`sources
      ensures Valid() && created == old(created) + ModelEffect(s, wait).answered
      ensures r == ModelEffect(s, wait).result
      ensures r.Done? <==>
        || s.missing == Value(false)
        || (s.missing == Value(true) && GoodCreate(s.create) && (wait ==> s.finish.Done?))
      ensures created == old(created) +
        if s.missing == Value(true) && JobIn(s.create).Some? then [JobIn(s.create).value] else []
    {
      CreateIs(s.create);
      if s.missing.Throws? {
        return Raises(s.missing.error);
      }
      if !s.missing.value {
        return Done;
      }
      var job := CreateJob(s.create);
      if job.Raises? {
        return job;
      }
      return if wait then s.finish else Done;
    }

    method InstallCapability(s: CapabilityScript) returns (r: Check)
      requires Valid()
      modifies this`created, this`sources
      ensures Valid() && created == old(created) + CapabilityEffect(s).answered
      ensures r == CapabilityEffect(s).result
      ensures r.Done? <==>
        && s.archive.Done? && GoodCreate(s.create) && s.finish.Done?
        && if s.ticket.HasTicket? then s.upload.Done? && s.commit.Done? else s.ticket.activeState
      ensures created == old(created) +
        if s.archive.Done? && JobIn(s.create).Some? then [JobIn(s.create).value] else []
    {
      CreateIs(s.create);
      if s.archive.Raises? {
        return s.archive;
      }
      var job := CreateJob(s.create);
      if job.Raises? {
        return job;
      }
      match s.ticket {
        case HasTicket =>
          if s.upload.Raises? {
            return s.upload;
          }
          if s.commit.Raises? {
            return s.commit;
          }
        case NoTicket(activeState) =>
          if !activeState {
            return Raises(Ordinary);
          }
      }
      return s.finish;
    }

    method Activate(s: Script, alreadyActive: bool) returns (r: Check)
      requires Valid()
      modifies this`created, this`sources
      ensures Valid() && created == old(created) + ActivationEffect(s, alreadyActive).answered
      ensures r == ActivationEffect(s, alreadyActive).result
    {
      if alreadyActive {
        return Done;
      }
      var capability := InstallCapability(s.capability);
      if capability.Raises? {
        return capability;
      }
      return s.report;
    }

    method MakeReady(s: Script) returns (r: Check)
      requires Valid()
      modifies this`created, this`sources
      ensures Valid() && created == old(created) + ReadinessEffect(s).answered
      ensures r == ReadinessEffect(s).result
    {
      var models := InstallModels(s.model, s.wait);
      if models.Raises? {
        return models;
      }
      return if s.wait then s.ready else Done;
    }

    /** The body of the try block, for a workflow the Worker already reports and for one it does not. */
    method Attempt(s: Script, alreadyActive: bool) returns (r: Check)
      requires Valid()
      modifies this`created, this`sources
      ensures Valid() && created == old(created) + AttemptEffect(s, alreadyActive).answered
      ensures r == AttemptEffect(s, alreadyActive).result
    {
      ThenInOrder(created, ActivationEffect(s, alreadyActive), ReadinessEffect(s));
      r := Activate(s, alreadyActive);
      if r.Done? {
        r := MakeReady(s);
      }
    }

    /** dict.fromkeys over the sources. */
    method DistinctSources() returns (ids: seq<string>)
      ensures ids == Distinct(sources)
    {
      ids := [];
      for i := 0 to |sources|
        invariant ids == Distinct(sources[..i])
      {
        assert sources[..i + 1][..i] == sources[..i];
        if sources[i] !in sources[..i] {
          ids := ids + [sources[i]];
        }
      }
      assert sources[..|sources|] == sources;
    }

    /** _attempt_workflow_install_rollback. */
    method Rollback(deactivate: string -> Check) returns (interrupted: bool)
      modifies this`revoked
      ensures revoked == old(revoked) + Requested(Distinct(sources), deactivate)
      ensures interrupted == RollbackInterrupted(Distinct(sources), deactivate)
    {
      var ids := DistinctSources();
      var i := 0;
      while i < |ids|
        invariant 0 <= i <= |ids|
        invariant revoked + Requested(ids[i..], deactivate) == old(revoked) + Requested(ids, deactivate)
        invariant RollbackInterrupted(ids[i..], deactivate) == RollbackInterrupted(ids, deactivate)
      {
        assert ids[i..][1..] == ids[i + 1..];
        revoked := revoked + [ids[i]];
        if deactivate(ids[i]) == Raises(Interrupt) {
          return true;
        }
        i := i + 1;
      }
      return false;
    }

    /** _apply_workflow_install. */
    method Install(s: Script) returns (r: Outcome)
      modifies this
      ensures created == AnsweredJobs(s) == CapabilityJob(s) + ModelJob(s)
      ensures revoked == old(revoked) + Revocations(s)
      ensures r == if Attempted(s).Done? then Installed else Failed(Raised(s))
      ensures r.Installed? <==> Succeeds(s)
    {
      SucceedsExactlyWhen(s);
      created, sources := [], [];
      assert revoked == old(revoked) + [];
      if s.alreadyActive.Throws? {
        return Failed(s.alreadyActive.error);
      }
      var alreadyActive := s.alreadyActive.value;
      if !alreadyActive && s.approval.Raises? {
        return Failed(s.approval.error);
      }
      var attempt := Attempt(s, alreadyActive);
      if attempt.Done? {
        return Installed;
      }
      if Compensates(alreadyActive, attempt.error) {
        var interrupted := Rollback(s.deactivate);
        if interrupted {
          return Failed(Interrupt);
        }
      }
      return Failed(attempt.error);
    }
  }

  /**
   Wherever the install fails with an Exception, it asks for the revocation of each job that the Gateway
   said this intent created, exactly once, and never of a deduplicated job, of a job of a Gateway that
   says nothing, or of one with contradictory answers.
   */
  lemma RevokedExactlyOnce(s: Script, id: string)
    requires forall x :: s.deactivate(x) != Raises(Interrupt)
    requires Attempted(s).Raises? && Compensates(s.alreadyActive == Value(true), Attempted(s).error)
    ensures multiset(Revocations(s))[id] ==
      if exists j :: j in AnsweredJobs(s) && CreatedByThisIntent(j) && j.id == id then 1 else 0
  {
    RequestedAll(Distinct(Owned(AnsweredJobs(s))), s.deactivate);
    DistinctOnce(Owned(AnsweredJobs(s)));
    OwnedAre(AnsweredJobs(s), id);
  }

  /** No install, however it ends, asks twice for one job or for a job it was not told it created. */
  lemma {:induction false} NothingElseIsRevoked(s: Script, id: string)
    ensures multiset(Revocations(s))[id] <= 1
    ensures id in Revocations(s) ==> exists j :: j in AnsweredJobs(s) && CreatedByThisIntent(j) && j.id == id
  {
    DistinctOnce(Owned(AnsweredJobs(s)));
    OwnedAre(AnsweredJobs(s), id);
    RequestedIsPrefix(Distinct(Owned(AnsweredJobs(s))), s.deactivate);
    var all := Distinct(Owned(AnsweredJobs(s)));
    var asked := Requested(all, s.deactivate);
    assert all == asked + all[|asked|..];
    assert multiset(all) == multiset(asked) + multiset(all[|asked|..]);
    if id in Revocations(s) {
      assert multiset(Revocations(s))[id] > 0;
      assert multiset(all)[id] > 0;
    }
  }

  lemma {:induction false} RequestedIsPrefix(sources: seq<string>, deactivate: string -> Check)
    ensures Requested(sources, deactivate) <= sources
  {
    if sources != [] {
      RequestedIsPrefix(sources[1..], deactivate);
    }
  }

  lemma {:induction false} InterruptedExactlyWhen(sources: seq<string>, deactivate: string -> Check)
    ensures RollbackInterrupted(sources, deactivate) <==>
      exists i :: 0 <= i < |sources| && deactivate(sources[i]) == Raises(Interrupt)
  {
    if sources != [] {
      InterruptedExactlyWhen(sources[1..], deactivate);
      if i :| 0 <= i < |sources| && deactivate(sources[i]) == Raises(Interrupt) {
        assert i > 0 ==> sources[1..][i - 1] == sources[i];
      }
    }
  }

  /**
   A failed install raises its first error, unless it revokes jobs and one of these requests is interrupted.
   */
  lemma RaisesExactlyWhen(s: Script)
    requires !Succeeds(s)
    ensures Attempted(s).Raises? && FirstRaised(Asks(s)).Raises?
    ensures Raised(s) ==
      if exists id :: id in Revocations(s) && s.deactivate(id) == Raises(Interrupt) then Interrupt
      else FirstRaised(Asks(s)).error
  {
    SucceedsExactlyWhen(s);
    FailsWithTheFirst(s);
    var all := Distinct(Owned(AnsweredJobs(s)));
    InterruptedExactlyWhen(all, s.deactivate);
    AskedUntilInterrupted(all, s.deactivate);
  }

  /** An interrupt among the revocations asked for is an interrupt among all there are to ask for. */
  lemma {:induction false} AskedUntilInterrupted(sources: seq<string>, deactivate: string -> Check)
    ensures RollbackInterrupted(sources, deactivate) <==>
      exists id :: id in Requested(sources, deactivate) && deactivate(id) == Raises(Interrupt)
  {
    if sources != [] {
      AskedUntilInterrupted(sources[1..], deactivate);
      assert sources[0] in Requested(sources, deactivate);
    }
  }

  /** The distinct sources are in the order in which they first occur. */
  lemma {:induction false} DistinctInOrder(ids: seq<string>, a: nat, b: nat, j: nat)
    requires a < b < |Distinct(ids)| && j < |ids| && ids[j] == Distinct(ids)[b]
    ensures exists i :: 0 <= i < j && ids[i] == Distinct(ids)[a]
  {
    var n := |ids| - 1;
    var front := ids[..n];
    if b < |Distinct(front)| {
      if j < n {
        DistinctInOrder(front, a, b, j);
        var i :| 0 <= i < j && front[i] == Distinct(front)[a];
        assert ids[i] == Distinct(ids)[a];
      } else {
        DistinctHas(front, a);
      }
    } else {
      DistinctHas(front, a);
      assert ids[n] == Distinct(ids)[b] && ids[n] !in front;
    }
  }

  lemma DistinctHas(ids: seq<string>, a: nat)
    requires a < |Distinct(ids)|
    ensures exists i :: 0 <= i < |ids| && ids[i] == Distinct(ids)[a]
  {
    DistinctOnce(ids);
    assert Distinct(ids)[a] in multiset(Distinct(ids));
    assert Distinct(ids)[a] in ids;
  }

  /** No source but the last has its revocation interrupted, so that all are asked for. */
  predicate UninterruptedBeforeLast(sources: seq<string>, deactivate: string -> Check) {
    forall i :: 0 <= i < |sources| - 1 ==> deactivate(sources[i]) != Raises(Interrupt)
  }

  lemma {:induction false} RequestedAllExactlyWhen(sources: seq<string>, deactivate: string -> Check)
    ensures Requested(sources, deactivate) == sources <==> UninterruptedBeforeLast(sources, deactivate)
  {
    if |sources| > 1 {
      var rest := sources[1..];
      RequestedAllExactlyWhen(rest, deactivate);
      assert sources == [sources[0]] + rest;
      assert forall i :: 1 <= i < |sources| - 1 ==> sources[i] == rest[i - 1];
      assert forall i :: 0 <= i < |rest| - 1 ==> rest[i] == sources[i + 1];
      if deactivate(sources[0]) != Raises(Interrupt) {
        assert Requested(sources, deactivate)[1..] == Requested(rest, deactivate);
      }
    }
  }

  /** Each job this intent created was asked to be revoked, exactly once. */
  ghost predicate EachOwnedRevokedOnce(s: Script) {
    forall id :: id in Owned(AnsweredJobs(s)) ==> multiset(Revocations(s))[id] == 1
  }

  lemma AskedOnceIsAll(owned: seq<string>, deactivate: string -> Check)
    ensures (forall id :: id in owned ==> multiset(Requested(Distinct(owned), deactivate))[id] == 1) <==>
      UninterruptedBeforeLast(Distinct(owned), deactivate)
  {
    var all, asked := Distinct(owned), Requested(Distinct(owned), deactivate);
    DistinctOnce(owned);
    RequestedAllExactlyWhen(all, deactivate);
    RequestedIsPrefix(all, deactivate);
    if asked != all {
      var id := all[|asked|];
      assert all == asked + [id] + all[|asked| + 1..];
      assert multiset(all)[id] >= multiset(asked)[id] + 1;
      assert id in owned;
    }
  }

  /**
   A failed install revokes each job this intent created exactly once, if and only if it created none, or the
   error was neither an interrupt nor the incomplete closure of a package being activated and no revocation
   before the last was interrupted.
   */
  lemma FailureRevokesExactlyWhen(s: Script)
    requires Attempted(s).Raises?
    ensures EachOwnedRevokedOnce(s) <==>
      || Owned(AnsweredJobs(s)) == []
      || (&& Attempted(s) != Raises(Interrupt)
          && !(Attempted(s) == Raises(IncompleteClosure) && s.alreadyActive == Value(false))
          && UninterruptedBeforeLast(Distinct(Owned(AnsweredJobs(s))), s.deactivate))
  {
    var owned := Owned(AnsweredJobs(s));
    if owned != [] {
      assert s.alreadyActive.Value?;
      assert owned[0] in owned;
      AskedOnceIsAll(owned, s.deactivate);
      CompensatesWhen(s.alreadyActive.value, Attempted(s).error);
    }
  }

  lemma CompensatesWhen(alreadyActive: bool, e: Error)
    ensures Compensates(alreadyActive, e) <==> !e.Interrupt? && !(e.IncompleteClosure? && !alreadyActive)
  {
  }

  /** An activation whose job the Gateway created for this intent, and whose upload then raises the error. */
  function BrokenUpload(id: string, error: Error): Script {
    Script(
      Value(false), Done,
      CapabilityScript(
        Done, Value(Answer(Job(id, Some(Created), Some(Flag(true))))), HasTicket, Raises(error), Done, Done),
      Done, ModelScript(Value(false), Throws(Ordinary), Done), true, Done, x => Done)
  }

  lemma BrokenUploadIs(id: string, error: Error)
    ensures AnsweredJobs(BrokenUpload(id, error)) == [Job(id, Some(Created), Some(Flag(true)))]
    ensures Attempted(BrokenUpload(id, error)) == Raises(error)
  {
    OwnershipIsExplicit(Job(id, Some(Created), Some(Flag(true))));
    assert CapabilityEffect(BrokenUpload(id, error).capability).result == Raises(error);
  }

  lemma OneOwned(id: string)
    ensures Distinct(Owned([Job(id, Some(Created), Some(Flag(true)))])) == [id]
  {
    var job := Job(id, Some(Created), Some(Flag(true)));
    assert [job][..0] == [] && Owned([job]) == [id];
    assert [id][..0] == [];
  }

  /** An interrupt during the upload leaves the created job standing; an ordinary error revokes it. */
  lemma InterruptLeavesJob(id: string)
    ensures AnsweredJobs(BrokenUpload(id, Interrupt)) == [Job(id, Some(Created), Some(Flag(true)))]
    ensures Revocations(BrokenUpload(id, Interrupt)) == []
    ensures Revocations(BrokenUpload(id, Ordinary)) == [id]
  {
    BrokenUploadIs(id, Interrupt);
    BrokenUploadIs(id, Ordinary);
    OneOwned(id);
    RequestedAllExactlyWhen([id], BrokenUpload(id, Ordinary).deactivate);
  }

}
