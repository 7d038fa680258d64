/**
 The broker's objects, imperatively: the journal's state table, the daemon's poll and command loop,
 and the rekey handler, against a Gateway object that keeps the commands and the attempts made per
 retry key.  The daemon carries, as ghost state, the run of the state machine it has performed;
 killing it between two operations leaves a prefix of that run.
 */
module Broker {
  import opened Common
  import opened BrokerModel
  import opened BrokerRuns
  import opened BrokerDelivery

  class BrokerJournal {
    var state: map<string, Value>

    constructor ()
      ensures state == map[]
    {
      state := map[];
    }

    method SetState(key: string, value: Value)
      modifies this
      ensures state == old(state)[key := value]
    {
      state := state[key := value];
    }

    method GetState(key: string) returns (value: Option<Value>)
      ensures value == if key in state then Some(state[key]) else None
    {
      value := if key in state then Some(state[key]) else None;
    }
  }

  class Gateway {
    var commands: seq<Command>
    var attempts: map<(Id, nat), string>

    constructor ()
      ensures commands == [] && attempts == map[]
    {
      commands, attempts := [], map[];
    }

    /** The pending commands in order, at most `limit` of them. */
    method Poll(limit: nat) returns (items: seq<nat>)
      ensures items == Prefix(Pendings(commands), limit)
      ensures items <= Pendings(commands) && |items| <= limit
      ensures |items| == limit || items == Pendings(commands)
    {
      items := [];
      for i := 0 to |commands|
        invariant items == Pendings(commands[..i])
      {
        assert commands[..i + 1][..i] == commands[..i];
        if commands[i].status == Pending {
          items := Placed(commands[..i + 1], items, i);
        }
      }
      assert commands[..|commands|] == commands;
      items := Prefix(items, limit);
    }

    /** POST retry; `offer` is what a new reservation would be, None when the request fails. */
    method Retry(id: Id, generation: nat, offer: Option<string>) returns (attempt: Option<string>)
      modifies this`attempts
      ensures offer.None? ==> attempt.None? && attempts == old(attempts)
      ensures offer.Some? ==>
        attempt == Some(if (id, generation) in old(attempts) then old(attempts)[(id, generation)] else offer.value)
      ensures offer.Some? ==> attempts == old(attempts)[(id, generation) := attempt.value]
    {
      if offer.None? {
        return None;
      }
      if (id, generation) !in attempts {
        attempts := attempts[(id, generation) := offer.value];
      }
      return Some(attempts[(id, generation)]);
    }

    /** POST complete, by id: whether the daemon sees success.  The row of an id is its last place. */
    method Complete(id: Id, reply: AckReply) returns (ok: bool)
      requires Live(commands, id) >= 0
      modifies this`commands
      ensures ok <==> reply.AckOk? && old(commands)[Live(old(commands), id)].status.Pending?
      ensures
        var cs, m := old(commands), Live(old(commands), id);
        commands == if reply.AckRefused? || !cs[m].status.Pending? then cs else Completing(cs, m)
    {
      var m := Live(commands, id);
      if reply == AckRefused || commands[m].status != Pending {
        return false;
      }
      commands := commands[m := commands[m].(status := Completed)];
      return reply == AckOk;
    }
  }

  /** The same commands in the same places. */
  ghost predicate SameIds(cs: seq<Command>, cs': seq<Command>) {
    |cs'| == |cs| && forall j :: 0 <= j < |cs| ==> cs'[j].id == cs[j].id
  }

  lemma OneMore(acks: seq<nat>, items: seq<nat>, k: nat)
    requires k < |items|
    ensures acks + items[..k] + [items[k]] == acks + items[..k + 1]
  {
    assert items[..k + 1] == items[..k] + [items[k]];
  }

  /** Every item is still the row of its command. */
  ghost predicate ItemsStay(cs: seq<Command>, items: seq<nat>) {
    forall i :: 0 <= i < |items| ==> items[i] < |cs| && Row(cs, items[i]) == items[i]
  }

  lemma SameIdsStay(cs: seq<Command>, cs': seq<Command>, items: seq<nat>)
    requires SameIds(cs, cs') && ItemsStay(cs, items)
    ensures ItemsStay(cs', items)
  {
    forall i | 0 <= i < |items|
      ensures Row(cs', items[i]) == items[i]
    {
      SameIdsSameLive(cs, cs', cs[items[i]].id);
    }
  }

  lemma {:induction false} SameIdsSameLive(cs: seq<Command>, cs': seq<Command>, id: Id)
    requires SameIds(cs, cs')
    ensures Live(cs', id) == Live(cs, id)
  {
    if cs != [] {
      SameIdsSameLive(cs[..|cs| - 1], cs'[..|cs| - 1], id);
    }
  }

  /** What the Gateway and the local checks answer while one command is handled. */
  datatype HandlerReplies =
    | NoRekeyNeeded
    | Rejected
    | Answers(offer: Option<string>, verified: bool, rekey: RekeyReply)

  datatype Replies = Replies(handler: HandlerReplies, ack: AckReply)

  /** The handler does what the command asks for, or finds that nothing is to be done. */
  predicate Handles(h: HandlerReplies) {
    h.NoRekeyNeeded? || (h.Answers? && h.offer.Some? && h.verified && h.rekey.RekeyOk?)
  }

  /** Everything the command needs is answered well. */
  predicate Good(r: Replies) {
    Handles(r.handler) && r.ack.AckOk?
  }

  /** The Gateway has the acknowledgement, whether or not the daemon learns of it. */
  predicate Recorded(r: Replies) {
    Handles(r.handler) && !r.ack.AckRefused?
  }

  /** The reservation expired under the handler. */
  predicate LosesReservation(h: HandlerReplies) {
    h.Answers? && h.offer.Some? && h.verified && h.rekey.ReservationExpired?
  }

  /** The attempt the Gateway answers to a retry: the one made under this key before, or the one it offers. */
  function AttemptFor(attempts: map<(Id, nat), string>, id: Id, generation: nat, offer: string): string {
    if (id, generation) in attempts then attempts[(id, generation)] else offer
  }

  /** Both journals have the same entry under the key, or none. */
  predicate SameEntry(j: Journal, j': Journal, key: string) {
    (key in j' <==> key in j) && (key in j ==> j'[key] == j[key])
  }

  lemma GenerationWritten(w: World, n: nat, generation: nat, attempt: string)
    requires w.pc.Working? && w.pc.stage == ReservationLost(generation, attempt)
    requires w.pc.k < |w.pc.items| && n == w.pc.items[w.pc.k] < |w.commands|
    ensures Next(w, WriteGeneration) ==
      w.(journal := w.journal[StateKey(w.commands[n].id) := Rekey(generation + 1, attempt, false)], pc := Idle)
  {
  }

  lemma AckStep(w: World, n: nat, reply: AckReply)
    requires w.pc.Working? && w.pc.stage.Handled? && w.pc.k < |w.pc.items| && n == w.pc.items[w.pc.k] < |w.commands|
    ensures
      var m, w' := Row(w.commands, n), Next(w, AckReplied(reply));
      var taken := !reply.AckRefused? && w.commands[m].status.Pending?;
      && w'.journal == w.journal && w'.attempts == w.attempts
      && w'.commands == (if taken then Completing(w.commands, m) else w.commands)
      && w'.logs.acks == (if taken then w.logs.acks + [m] else w.logs.acks)
      && w'.pc == if taken && reply.AckOk? then w.pc.(stage := Acknowledged) else Idle
  {
  }

  class BrokerDaemon {
    const journal: BrokerJournal
    const gateway: Gateway
    ghost var world: World
    ghost var trace: seq<Event>

    /** The run so far, and the parts of its last world that are real. */
    ghost predicate Valid()
      reads this, journal, gateway
    {
      && world == Run(FRESH, trace)
      && world.journal == journal.state
      && world.commands == gateway.commands && world.attempts == gateway.attempts
    }

    constructor ()
      ensures Valid() && world == FRESH && fresh(journal) && fresh(gateway)
    {
      journal := new BrokerJournal();
      gateway := new Gateway();
      world, trace := FRESH, [];
    }

    ghost method Step(e: Event)
      requires world == Run(FRESH, trace)
      modifies this`world, this`trace
      ensures world == Next(old(world), e) && trace == old(trace) + [e]
      ensures world == Run(FRESH, trace)
    {
      assert (trace + [e])[..|trace|] == trace;
      world, trace := Next(world, e), trace + [e];
    }

    /** The daemon is handling command n and has come to this stage. */
    ghost predicate At(n: nat, stage: Stage)
      reads this
    {
      && world.pc.Working? && world.pc.stage == stage && world.pc.k < |world.pc.items|
      && n == world.pc.items[world.pc.k] < |world.commands|
    }

    /** The handler's retry request, under the key of the generation it finds in the journal. */
    method Reserve(n: nat, offer: Option<string>) returns (generation: nat, attempt: Option<string>)
      requires Valid() && At(n, Start)
      modifies this`world, this`trace, gateway`attempts
      ensures Valid() && trace == old(trace) + [RetryReplied(offer)]
      ensures generation == Generation(journal.state, gateway.commands[n].id)
      ensures
        var request := (gateway.commands[n].id, generation);
        world.logs == old(world.logs).(retries := old(world.logs.retries) + [request])
      ensures attempt.Some? <==> offer.Some?
      ensures offer.Some? ==>
        attempt.value == AttemptFor(old(gateway.attempts), gateway.commands[n].id, generation, offer.value)
      ensures world.pc == if attempt.Some? then old(world.pc).(stage := Reserved(generation, attempt.value)) else Idle
    {
      var id := gateway.commands[n].id;
      var stored := journal.GetState(StateKey(id));
      generation :=
        if stored.Some? && stored.value.Rekey? && stored.value.generation >= 0 then stored.value.generation else 0;
      attempt := gateway.Retry(id, generation, offer);
      Step(RetryReplied(offer));
    }

    /** Where a rekey reply leaves the handler. */
    static function AfterRekey(pc: Pc, generation: nat, attempt: string, reply: RekeyReply): Pc
      requires pc.Working?
    {
      match reply
      case RekeyOk => pc.(stage := Committed(generation, attempt))
      case ReservationExpired => pc.(stage := ReservationLost(generation, attempt))
      case RekeyRefused => Idle
    }

    /** The handler's rekey request, under the key of the command and attempt. */
    method PostRekey(n: nat, generation: nat, attempt: string, reply: RekeyReply)
      requires Valid() && At(n, Reserved(generation, attempt))
      modifies this`world, this`trace
      ensures Valid() && trace == old(trace) + [RekeyReplied(reply)]
      ensures world.pc == AfterRekey(old(world.pc), generation, attempt, reply)
      ensures
        var id, logs := gateway.commands[n].id, old(world.logs);
        && world.logs.rekeys == logs.rekeys + [(id, generation, attempt)]
        && world.logs.expired == logs.expired + (if reply.ReservationExpired? then [(id, generation)] else [])
        && world.logs.retries == logs.retries && world.logs.acks == logs.acks
    {
      Step(RekeyReplied(reply));
    }

    /** A lost reservation: the next generation is stored, so that the next poll uses a fresh key. */
    method AdvanceGeneration(n: nat, generation: nat, attempt: string)
      requires Valid() && At(n, ReservationLost(generation, attempt))
      modifies this`world, this`trace, journal
      ensures Valid() && trace == old(trace) + [WriteGeneration] && world.pc == Idle && world.logs == old(world.logs)
      ensures journal.state ==
        old(journal.state)[StateKey(gateway.commands[n].id) := Rekey(generation + 1, attempt, false)]
    {
      GenerationWritten(world, n, generation, attempt);
      journal.SetState(StateKey(gateway.commands[n].id), Rekey(generation + 1, attempt, false));
      Step(WriteGeneration);
    }

    /** A rekeyed task: completion is stored under the same generation. */
    method RecordCompletion(n: nat, generation: nat, attempt: string)
      requires Valid() && At(n, Committed(generation, attempt))
      modifies this`world, this`trace, journal
      ensures Valid() && trace == old(trace) + [WriteCompletion]
      ensures world.pc == old(world.pc).(stage := Handled) && world.logs == old(world.logs)
      ensures journal.state ==
        old(journal.state)[StateKey(gateway.commands[n].id) := Rekey(generation, attempt, true)]
    {
      journal.SetState(StateKey(gateway.commands[n].id), Rekey(generation, attempt, true));
      Step(WriteCompletion);
    }

    /** BrokerRekeyHandler.__call__, from the stored generation on. */
    method RekeyTask(n: nat, replies: HandlerReplies) returns (ok: bool)
      requires Valid() && At(n, Start) && replies.Answers?
      modifies this`world, this`trace, journal, gateway`attempts
      ensures Valid() && old(trace) <= trace
      ensures ok <==> replies.offer.Some? && replies.verified && replies.rekey.RekeyOk?
      ensures world.pc == if ok then old(world.pc).(stage := Handled) else Idle
      ensures world.logs.acks == old(world.logs.acks)
      ensures
        var id := gateway.commands[n].id;
        var g := Generation(old(journal.state), id);
        if !ok && !LosesReservation(replies) then journal.state == old(journal.state)
        else
          var attempt := AttemptFor(old(gateway.attempts), id, g, replies.offer.value);
          journal.state == old(journal.state)[StateKey(id) := Rekey(if ok then g else g + 1, attempt, ok)]
    {
      var generation, attempt := Reserve(n, replies.offer);
      if attempt.None? {
        return false;
      }
      if !replies.verified {
        Step(HandlerFails);
        return false;
      }
      PostRekey(n, generation, attempt.value, replies.rekey);
      if replies.rekey == ReservationExpired {
        AdvanceGeneration(n, generation, attempt.value);
      } else if replies.rekey == RekeyOk {
        RecordCompletion(n, generation, attempt.value);
      }
      return replies.rekey == RekeyOk;
    }

    /**
     _execute: handle, acknowledge, then move the cursor.  It succeeds exactly when the handler does and the
     acknowledgement of a command that waits is answered; a failure leaves the cursor alone.
     */
    method Execute(n: nat, replies: Replies) returns (ok: bool)
      requires Valid() && At(n, Start)
      modifies this`world, this`trace, journal, gateway
      ensures Valid() && old(trace) <= trace
      ensures ok <==> Good(replies) && Waits(old(gateway.commands), old(Row(gateway.commands, n)))
      ensures
        var cs, m := old(gateway.commands), old(Row(gateway.commands, n));
        var recorded := Recorded(replies) && Waits(cs, m);
        && gateway.commands == (if recorded then cs[m := cs[m].(status := Completed)] else cs)
        && world.logs.acks == old(world.logs.acks) + if recorded then [m] else []
      ensures ok ==> CURSOR in journal.state && journal.state[CURSOR] == Cursor(gateway.commands[n].id)
      ensures !ok ==> SameEntry(old(journal.state), journal.state, CURSOR)
      ensures Generation(journal.state, gateway.commands[n].id) ==
        Generation(old(journal.state), gateway.commands[n].id) + if LosesReservation(replies.handler) then 1 else 0
      ensures world.pc == if ok then Following(old(world.pc)) else Idle
    {
      var handled := Handle(n, replies.handler);
      if !handled {
        return false;
      }
      ok := PostComplete(n, replies.ack);
      if ok {
        StoreCursor(journal.state, gateway.commands[n].id);
        MoveCursor(n);
      }
    }

    /** The handler of one command. */
    method Handle(n: nat, replies: HandlerReplies) returns (ok: bool)
      requires Valid() && At(n, Start)
      modifies this`world, this`trace, journal, gateway`attempts
      ensures Valid() && old(trace) <= trace
      ensures ok <==> Handles(replies)
      ensures world.pc == if ok then old(world.pc).(stage := Handled) else Idle
      ensures world.logs.acks == old(world.logs.acks)
      ensures SameEntry(old(journal.state), journal.state, CURSOR)
      ensures Generation(journal.state, gateway.commands[n].id) ==
        Generation(old(journal.state), gateway.commands[n].id) + if LosesReservation(replies) then 1 else 0
    {
      match replies
      case Rejected =>
        Step(HandlerFails);
        return false;
      case NoRekeyNeeded =>
        Step(HandlerSkips);
        return true;
      case Answers(_, _, _) =>
        ghost var id, j := gateway.commands[n].id, journal.state;
        ok := RekeyTask(n, replies);
        StateKeysDiffer(id, id);
    }

    /** The acknowledgement; the Gateway may have recorded it even when the daemon sees a failure. */
    method PostComplete(n: nat, reply: AckReply) returns (ok: bool)
      requires Valid() && At(n, Handled)
      modifies this`world, this`trace, gateway`commands
      ensures Valid() && trace == old(trace) + [AckReplied(reply)]
      ensures ok <==> reply.AckOk? && Waits(old(gateway.commands), old(Row(gateway.commands, n)))
      ensures
        var cs, m := old(gateway.commands), old(Row(gateway.commands, n));
        var recorded := !reply.AckRefused? && Waits(cs, m);
        && gateway.commands == (if recorded then cs[m := cs[m].(status := Completed)] else cs)
        && world.logs.acks == old(world.logs.acks) + if recorded then [m] else []
      ensures world.pc == if ok then old(world.pc).(stage := Acknowledged) else Idle
    {
      AckStep(world, n, reply);
      ok := gateway.Complete(gateway.commands[n].id, reply);
      Step(AckReplied(reply));
    }

    method MoveCursor(n: nat)
      requires Valid() && At(n, Acknowledged)
      modifies this`world, this`trace, journal
      ensures Valid() && trace == old(trace) + [WriteCursor]
      ensures journal.state == old(journal.state)[CURSOR := Cursor(gateway.commands[n].id)]
      ensures world.pc == Following(old(world.pc)) && world.logs == old(world.logs)
    {
      journal.SetState(CURSOR, Cursor(gateway.commands[n].id));
      Step(WriteCursor);
    }

    /** The poll: the pending commands to execute, in the order of the table. */
    method BeginRun(limit: nat) returns (items: seq<nat>)
      requires Valid() && world.pc.Idle?
      modifies this`world, this`trace
      ensures Valid() && trace == old(trace) + [Poll(limit)]
      ensures items == Prefix(Pendings(gateway.commands), limit) && NoRepeats(items)
      ensures gateway.commands == old(gateway.commands) && journal.state == old(journal.state)
      ensures AllWait(gateway.commands, items)
      ensures |items| <= |gateway.commands| && ItemsStay(gateway.commands, items)
      ensures world.pc == if items == [] then Idle else Working(items, 0, Start)
      ensures world.logs.acks == old(world.logs.acks)
    {
      items := gateway.Poll(limit);
      FreshOk();
      RunBase(FRESH, trace);
      PollItems(gateway.commands, limit);
      Step(Poll(limit));
    }

    /** One turn of the loop: the k-th command polled, and then the daemon stands before the next. */
    method ExecuteAt(items: seq<nat>, k: nat, replies: Replies) returns (ok: bool)
      requires Valid() && k < |items| && ItemsStay(gateway.commands, items) && world.pc == Working(items, k, Start)
      requires Waits(gateway.commands, items[k])
      modifies this`world, this`trace, journal, gateway
      ensures Valid() && old(trace) <= trace && ItemsStay(gateway.commands, items)
      ensures ok <==> Good(replies)
      ensures Turn(old(Look()), Look(), items[k], replies)
      ensures world.pc == if ok && k + 1 < |items| then Working(items, k + 1, Start) else Idle
    {
      ghost var cs := gateway.commands;
      ok := Execute(items[k], replies);
      SameIdsStay(cs, gateway.commands, items);
    }

    /** What the outside sees of the daemon. */
    ghost function Look(): Seen
      reads this, journal, gateway
    {
      Seen(gateway.commands, journal.state, world.logs.acks)
    }

    /**
     run_once: poll, then execute in order and stop at the first command that fails.  The number executed is that
     of the leading commands whose replies are all good: those are completed, and the cursor is on the last.
     */
    method RunOnce(limit: nat, replies: seq<Replies>) returns (executed: nat)
      requires Valid() && world.pc.Idle? && |replies| >= |gateway.commands|
      modifies this`world, this`trace, journal, gateway
      ensures Valid() && world.pc.Idle? && old(trace) <= trace
      ensures
        var items := Prefix(Pendings(old(gateway.commands)), limit);
        |items| <= |replies| && Outcome(old(Look()), Look(), items, replies[..|items|], executed)
    {
      var items := BeginRun(limit);
      executed := ExecuteAll(items, replies[..|items|]);
    }

    /** The loop over the polled commands. */
    method ExecuteAll(items: seq<nat>, replies: seq<Replies>) returns (executed: nat)
      requires Valid() && ItemsStay(gateway.commands, items) && |items| == |replies| && NoRepeats(items)
      requires AllWait(gateway.commands, items)
      requires world.pc == if items == [] then Idle else Working(items, 0, Start)
      modifies this`world, this`trace, journal, gateway
      ensures Valid() && world.pc.Idle? && old(trace) <= trace
      ensures Outcome(old(Look()), Look(), items, replies, executed)
    {
      ghost var before := Look();
      NoProgress(before, items);
      executed := 0;
      while executed < |items|
        invariant 0 <= executed <= |items|
        invariant Valid() && old(trace) <= trace && Standing(before, items, replies, executed)
      {
        var ok := ExecuteNext(before, items, executed, replies);
        if !ok {
          return;
        }
        executed := executed + 1;
      }
      Completes(before, Look(), items, replies);
    }

    /** The first k commands are executed, and the daemon stands before the next, or is done. */
    ghost predicate Standing(before: Seen, items: seq<nat>, replies: seq<Replies>, k: nat)
      reads this, journal, gateway
    {
      && ItemsStay(gateway.commands, items) && Progress(before, Look(), items, k, k) && GoodBefore(replies, k)
      && world.pc == if k < |items| then Working(items, k, Start) else Idle
    }

    method ExecuteNext(ghost before: Seen, items: seq<nat>, k: nat, replies: seq<Replies>) returns (ok: bool)
      requires Valid() && k < |items| == |replies| && Standing(before, items, replies, k)
      requires NoRepeats(items) && AllWait(before.commands, items)
      modifies this`world, this`trace, journal, gateway
      ensures Valid() && old(trace) <= trace
      ensures ok ==> Standing(before, items, replies, k + 1)
      ensures !ok ==> world.pc.Idle? && Outcome(before, Look(), items, replies, k)
    {
      ghost var here := Look();
      StillWaits(before, here, items, k);
      ok := ExecuteAt(items, k, replies[k]);
      TurnProgresses(before, here, Look(), items, k, replies[k]);
    }
  }

  /** The Gateway's table, the journal, and the acknowledgements the Gateway has. */
  datatype Seen = Seen(commands: seq<Command>, journal: Journal, acks: seq<nat>)

  ghost predicate NoRepeats(items: seq<nat>) {
    forall i, j :: 0 <= i < j < |items| ==> items[i] != items[j]
  }

  ghost predicate AllWait(cs: seq<Command>, items: seq<nat>) {
    forall i :: 0 <= i < |items| ==> Waits(cs, items[i])
  }

  ghost predicate GoodBefore(replies: seq<Replies>, n: nat) {
    n <= |replies| && forall i :: 0 <= i < n ==> Good(replies[i])
  }

  /** One command was executed: completed if recorded, and under the cursor if all went well. */
  ghost predicate Turn(a: Seen, b: Seen, m: nat, r: Replies) {
    && m < |a.commands|
    && b.commands == (if Recorded(r) then Completing(a.commands, m) else a.commands)
    && b.acks == a.acks + (if Recorded(r) then [m] else [])
    && if Good(r) then CURSOR in b.journal && b.journal[CURSOR] == Cursor(a.commands[m].id)
       else SameEntry(a.journal, b.journal, CURSOR)
  }

  /** The table with these commands completed. */
  function Completions(cs: seq<Command>, items: seq<nat>): (cs': seq<Command>)
    requires forall i :: 0 <= i < |items| ==> items[i] < |cs|
    ensures |cs'| == |cs|
  {
    if items == [] then cs
    else
      var n := |items| - 1;
      Completing(Completions(cs, items[..n]), items[n])
  }

  /** Exactly these commands are completed, and nothing else of the table differs. */
  lemma {:induction false} CompletionsAre(cs: seq<Command>, items: seq<nat>, m: nat)
    requires (forall i :: 0 <= i < |items| ==> items[i] < |cs|) && m < |cs|
    ensures Completions(cs, items)[m] == if m in items then cs[m].(status := Completed) else cs[m]
  {
    if items != [] {
      var n := |items| - 1;
      CompletionsAre(cs, items[..n], m);
      assert items == items[..n] + [items[n]];
    }
  }

  /** The first `recorded` commands are acknowledged, and the cursor is on the last of the first `executed`. */
  ghost predicate Progress(a: Seen, b: Seen, items: seq<nat>, recorded: nat, executed: nat) {
    && executed <= recorded <= |items| && (forall i :: 0 <= i < |items| ==> items[i] < |a.commands|)
    && b.commands == Completions(a.commands, items[..recorded])
    && b.acks == a.acks + items[..recorded]
    && if executed == 0 then SameEntry(a.journal, b.journal, CURSOR)
       else
         CURSOR in b.journal && b.journal[CURSOR] == Cursor(a.commands[items[executed - 1]].id)
  }

  /**
   The commands executed are the leading ones with good replies; all of them are acknowledged, and besides them
   at most the next, when the Gateway recorded it and its answer was lost.
   */
  ghost predicate Outcome(a: Seen, b: Seen, items: seq<nat>, replies: seq<Replies>, n: nat) {
    && |replies| == |items| && GoodBefore(replies, n) && (n < |replies| ==> !Good(replies[n]))
    && Progress(a, b, items, if n < |replies| && Recorded(replies[n]) then n + 1 else n, n)
  }

  lemma StillWaits(a: Seen, b: Seen, items: seq<nat>, k: nat)
    requires k < |items| && NoRepeats(items) && AllWait(a.commands, items) && Progress(a, b, items, k, k)
    ensures Waits(b.commands, items[k])
  {
    assert items[k] !in items[..k];
    assert Waits(a.commands, items[k]);
    CompletionsAre(a.commands, items[..k], items[k]);
  }

  lemma Completes(a: Seen, b: Seen, items: seq<nat>, replies: seq<Replies>)
    requires |replies| == |items| && GoodBefore(replies, |items|) && Progress(a, b, items, |items|, |items|)
    ensures Outcome(a, b, items, replies, |items|)
  {
  }

  lemma NoProgress(a: Seen, items: seq<nat>)
    requires AllWait(a.commands, items)
    ensures Progress(a, a, items, 0, 0)
  {
  }

  lemma TurnProgresses(a: Seen, b: Seen, c: Seen, items: seq<nat>, k: nat, r: Replies)
    requires k < |items| && Progress(a, b, items, k, k) && Turn(b, c, items[k], r)
    ensures Progress(a, c, items, if Recorded(r) then k + 1 else k, if Good(r) then k + 1 else k)
  {
    OneMore(a.acks, items, k);
    assert items[..k + 1][..k] == items[..k];
    CompletionsAre(a.commands, items[..k], items[k]);
  }

  function Following(pc: Pc): Pc
    requires pc.Working?
  {
    if pc.k + 1 < |pc.items| then Working(pc.items, pc.k + 1, Start) else Idle
  }
}
