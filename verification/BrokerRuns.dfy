/**
 What holds in every run of the Home Broker.
 */
module BrokerRuns {
  import opened Common
  import opened BrokerModel

  // ----- the journal's keys -----

  lemma StateKeysDiffer(id: Id, id': Id)
    ensures StateKey(id) != CURSOR
    ensures StateKey(id) == StateKey(id') ==> id == id'
  {
    assert StateKey(id)[0] == 'c' && CURSOR[0] == 'l';
    assert StateKey(id)[8..] == id && StateKey(id')[8..] == id';
  }

  // ----- places -----

  /** The daemon works on places that exist. */
  ghost predicate InRange(w: World) {
    w.pc.Working? ==> w.pc.k < |w.pc.items| && forall i :: 0 <= i < |w.pc.items| ==> w.pc.items[i] < |w.commands|
  }

  lemma NextInRange(w: World, e: Event)
    requires InRange(w)
    ensures InRange(Next(w, e)) && |w.commands| <= |Next(w, e).commands|
  {
  }

  // ----- retry generations -----

  /** What the handler remembers of the generation it read is still what is stored. */
  ghost predicate StageOk(w: World)
    requires w.pc.Working? && w.pc.k < |w.pc.items| && w.pc.items[w.pc.k] < |w.commands|
  {
    var id := w.commands[w.pc.items[w.pc.k]].id;
    match w.pc.stage
    case Reserved(g, a) => g == Generation(w.journal, id) && (id, g) in w.attempts && w.attempts[(id, g)] == a
    case ReservationLost(g, a) => g == Generation(w.journal, id) && (id, g) in w.logs.expired
    case Committed(g, a) => g == Generation(w.journal, id)
    case _ => true
  }

  ghost predicate RetryInv(w: World) {
    && RetryLogsOk(w)
    && (w.pc.Working? ==> w.pc.k < |w.pc.items| && w.pc.items[w.pc.k] < |w.commands| && StageOk(w))
  }

  lemma StoreGeneration(j: Journal, id: Id, g: nat, attempt: string, completed: bool)
    ensures
      var j' := j[StateKey(id) := Rekey(g, attempt, completed)];
      Generation(j', id) == g && forall id' :: id' != id ==> Generation(j', id') == Generation(j, id')
  {
    forall id' | id' != id
      ensures StateKey(id') != StateKey(id)
    {
      StateKeysDiffer(id, id');
    }
  }

  lemma StoreCursor(j: Journal, id: Id)
    ensures forall id' :: Generation(j[CURSOR := Cursor(id)], id') == Generation(j, id')
  {
    forall id'
      ensures StateKey(id') != CURSOR
    {
      StateKeysDiffer(id', id');
    }
  }

  /** In no step does the stored generation of any command decrease. */
  lemma GenerationNeverDecreases(w: World, e: Event, id: Id)
    requires RetryInv(w)
    ensures Generation(w.journal, id) <= Generation(Next(w, e).journal, id)
  {
    if w.pc.Working? {
      var own, stage := w.commands[w.pc.items[w.pc.k]].id, w.pc.stage;
      if e.WriteCursor? {
        StoreCursor(w.journal, own);
      } else if e.WriteGeneration? && stage.ReservationLost? {
        StoreGeneration(w.journal, own, stage.generation + 1, stage.attempt, false);
      } else if e.WriteCompletion? && stage.Committed? {
        StoreGeneration(w.journal, own, stage.generation, stage.attempt, true);
      }
    }
  }

  lemma NextRetries(w: World, e: Event)
    requires InRange(w) && RetryInv(w)
    ensures RetryInv(Next(w, e))
  {
    NextInRange(w, e);
    if w.pc.Working? && !e.Enqueue? && !e.Expire? && !e.Requeue? && !e.Poll? && !e.Crash? {
      WorkRetries(w, e);
    }
  }

  ghost predicate RetryLogsOk(w: World) {
    && (forall k: (Id, nat) :: k in w.logs.retries ==> k.1 <= Generation(w.journal, k.0))
    && (forall k: (Id, nat) :: k.1 < Generation(w.journal, k.0) ==> k in w.logs.expired)
    && (forall k: (Id, nat, string) :: k in w.logs.rekeys ==> (k.0, k.1) in w.attempts && w.attempts[(k.0, k.1)] == k.2)
  }

  lemma RetryStep(w: World, id: Id, reply: Option<string>)
    requires RetryInv(w) && w.pc.Working? && id == w.commands[w.pc.items[w.pc.k]].id
    ensures RetryInv(Retry(w, id, reply))
  {
    assert RetryLogsOk(Retry(w, id, reply));
  }

  lemma RekeyStep(w: World, id: Id, reply: RekeyReply)
    requires RetryInv(w) && w.pc.Working? && w.pc.stage.Reserved? && id == w.commands[w.pc.items[w.pc.k]].id
    ensures RetryInv(RekeyTask(w, id, reply))
  {
    assert RetryLogsOk(RekeyTask(w, id, reply));
  }

  lemma WriteStep(w: World, id: Id, g: nat, attempt: string, completed: bool)
    requires RetryLogsOk(w) && Generation(w.journal, id) <= g <= Generation(w.journal, id) + 1
    requires g == Generation(w.journal, id) + 1 ==> (id, g - 1) in w.logs.expired
    ensures RetryLogsOk(w.(journal := w.journal[StateKey(id) := Rekey(g, attempt, completed)]))
  {
    StoreGeneration(w.journal, id, g, attempt, completed);
  }

  lemma WorkRetries(w: World, e: Event)
    requires InRange(w) && RetryInv(w) && w.pc.Working?
    ensures RetryInv(Work(w, e))
  {
    var id, stage := w.commands[w.pc.items[w.pc.k]].id, w.pc.stage;
    match e
    case RetryReplied(reply) => if stage.Start? { RetryStep(w, id, reply); }
    case RekeyReplied(reply) => if stage.Reserved? { RekeyStep(w, id, reply); }
    case WriteGeneration =>
      if stage.ReservationLost? { WriteStep(w, id, stage.generation + 1, stage.attempt, false); }
    case WriteCompletion =>
      if stage.Committed? { WriteStep(w, id, stage.generation, stage.attempt, true); }
    case WriteCursor => StoreCursor(w.journal, id);
    case _ =>
  }

  lemma {:induction false} RunRetries(es: seq<Event>)
    ensures InRange(Run(FRESH, es)) && RetryInv(Run(FRESH, es))
  {
    if es != [] {
      RunRetries(es[..|es| - 1]);
      NextInRange(Run(FRESH, es[..|es| - 1]), es[|es| - 1]);
      NextRetries(Run(FRESH, es[..|es| - 1]), es[|es| - 1]);
    }
  }

  lemma RunSnoc(es: seq<Event>, e: Event)
    ensures Run(FRESH, es + [e]) == Next(Run(FRESH, es), e)
  {
    assert (es + [e])[..|es|] == es;
  }

  /** Over any further run the stored generation of a command never decreases. */
  lemma {:induction false} GenerationGrows(es: seq<Event>, more: seq<Event>, id: Id)
    ensures Generation(Run(FRESH, es).journal, id) <= Generation(Run(FRESH, es + more).journal, id)
    decreases |more|
  {
    if more == [] {
      assert es + more == es;
    } else {
      var n := |more| - 1;
      GenerationGrows(es, more[..n], id);
      RunRetries(es + more[..n]);
      GenerationNeverDecreases(Run(FRESH, es + more[..n]), more[n], id);
      assert es + more == es + more[..n] + [more[n]];
      RunSnoc(es + more[..n], more[n]);
    }
  }

  /** A retry key beyond the first is used only after its predecessor's reservation was reported expired. */
  lemma FreshKeyNeedsExpiry(es: seq<Event>, id: Id, g: nat, g': nat)
    requires (id, g) in Run(FRESH, es).logs.retries && g' < g
    ensures (id, g') in Run(FRESH, es).logs.expired
  {
    RunRetries(es);
    var k: (Id, nat) := (id, g');
    assert k.1 < Generation(Run(FRESH, es).journal, k.0);
  }

  /** The distinct generations of one command in a log. */
  ghost function GenerationsOf(log: seq<(Id, nat)>, id: Id): set<nat> {
    set k | k in log && k.0 == id :: k.1
  }

  /** How many entries of a log are about one command. */
  function RepliesFor(log: seq<(Id, nat)>, id: Id): nat {
    if log == [] then 0 else RepliesFor(log[..|log| - 1], id) + if log[|log| - 1].0 == id then 1 else 0
  }

  /** The distinct retry keys used for a command are at most one more than the expired-reservation replies it got. */
  lemma RetryKeysBounded(es: seq<Event>, id: Id)
    ensures |GenerationsOf(Run(FRESH, es).logs.retries, id)| <= 1 + RepliesFor(Run(FRESH, es).logs.expired, id)
  {
    RunRetries(es);
    var w := Run(FRESH, es);
    var g := Generation(w.journal, id);
    var used, gone := GenerationsOf(w.logs.retries, id), GenerationsOf(w.logs.expired, id);
    forall i | i in UpTo(g)
      ensures i in gone
    {
      var k: (Id, nat) := (id, i);
      assert k in w.logs.expired;
    }
    assert used <= UpTo(g + 1);
    SubsetSize(UpTo(g), gone);
    SubsetSize(used, UpTo(g + 1));
    CountLog(w.logs.expired, id);
  }

  ghost function UpTo(n: nat): (s: set<nat>)
    ensures |s| == n && forall i: nat :: i in s <==> i < n
  {
    if n == 0 then {} else UpTo(n - 1) + {n - 1}
  }

  lemma {:induction false} CountLog(log: seq<(Id, nat)>, id: Id)
    ensures |GenerationsOf(log, id)| <= RepliesFor(log, id)
  {
    if log != [] {
      var n := |log| - 1;
      CountLog(log[..n], id);
      assert log == log[..n] + [log[n]];
      if log[n].0 == id {
        assert GenerationsOf(log, id) == GenerationsOf(log[..n], id) + {log[n].1};
      } else {
        assert GenerationsOf(log, id) == GenerationsOf(log[..n], id);
      }
    }
  }

  /** A handler that resumes after a crash reuses the keys of the interrupted one. */
  lemma ResumedRunReusesKeys(es: seq<Event>, id: Id, g: nat, a: string, a': string)
    requires (id, g, a) in Run(FRESH, es).logs.rekeys && (id, g, a') in Run(FRESH, es).logs.rekeys
    ensures a == a'
  {
    RunRetries(es);
    var k: (Id, nat, string), k': (Id, nat, string) := (id, g, a), (id, g, a');
    assert k in Run(FRESH, es).logs.rekeys && k' in Run(FRESH, es).logs.rekeys;
  }
}
