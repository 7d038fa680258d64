/**
 What one step of the broker does, told by its causes: which stage a command's turn comes to, when the turn ends
 before the command is through, and which requests and journal rows it leaves behind.
 */
module BrokerSteps {
  import opened Common
  import opened BrokerModel

  /** The daemon holds a command of its polled page. */
  predicate InTurn(w: World) {
    w.pc.Working? && w.pc.k < |w.pc.items| && w.pc.items[w.pc.k] < |w.commands|
  }

  function Task(w: World): Id
    requires InTurn(w)
  {
    w.commands[w.pc.items[w.pc.k]].id
  }

  /** The Gateway's row for the command, the last place with its id, still waits. */
  ghost predicate Waits(w: World, id: Id) {
    exists m :: 0 <= m < |w.commands| && w.commands[m].id == id && w.commands[m].status.Pending? &&
      forall j :: m < j < |w.commands| ==> w.commands[j].id != id
  }

  lemma LiveWaits(w: World, id: Id, m: int)
    requires m == Live(w.commands, id) && m >= 0
    ensures Waits(w, id) <==> w.commands[m].status.Pending?
  {
    if Waits(w, id) {
      var n :| 0 <= n < |w.commands| && w.commands[n].id == id && w.commands[n].status.Pending? &&
               forall j :: n < j < |w.commands| ==> w.commands[j].id != id;
      assert n == m;
    }
  }

  /** Why the daemon lets go of its page: a kill, a failed handler, a refused request, or the last command done. */
  ghost predicate EndsBecause(w: World, e: Event)
    requires InTurn(w)
  {
    match w.pc.stage
    case Start => e.HandlerFails? || e == RetryReplied(None)
    case Reserved(_, _) => e.HandlerFails? || e == RekeyReplied(RekeyRefused)
    case ReservationLost(_, _) => e.WriteGeneration?
    case Committed(_, _) => false
    case Handled => e.AckReplied? && (!e.ack.AckOk? || !Waits(w, Task(w)))
    case Acknowledged => e.WriteCursor? && w.pc.k + 1 == |w.pc.items|
  }

  /** What brings a command from the stage it is at to this one. */
  ghost predicate ComesBecause(w: World, e: Event, stage: Stage)
    requires InTurn(w)
  {
    var id, s := Task(w), w.pc.stage;
    match stage
    case Start => s.Acknowledged? && e.WriteCursor? && w.pc.k + 1 < |w.pc.items|
    case Reserved(g, attempt) =>
      && s.Start? && e.RetryReplied? && e.attempt.Some? && g == Generation(w.journal, id)
      && attempt == if (id, g) in w.attempts then w.attempts[(id, g)] else e.attempt.value
    case ReservationLost(g, attempt) => s == Reserved(g, attempt) && e == RekeyReplied(ReservationExpired)
    case Committed(g, attempt) => s == Reserved(g, attempt) && e == RekeyReplied(RekeyOk)
    case Handled => (s.Start? && e.HandlerSkips?) || (s.Committed? && e.WriteCompletion?)
    case Acknowledged => s.Handled? && e == AckReplied(AckOk) && Waits(w, id)
  }

  lemma RowIsLive(w: World)
    requires InTurn(w)
    ensures Live(w.commands, Task(w)) >= 0
    ensures Waits(w, Task(w)) <==> w.commands[Live(w.commands, Task(w))].status.Pending?
  {
    LiveWaits(w, Task(w), Live(w.commands, Task(w)));
  }

  lemma TurnEndsExactlyWhen(w: World, e: Event)
    requires InTurn(w)
    ensures Next(w, e).pc.Idle? <==> e.Crash? || EndsBecause(w, e)
  {
    RowIsLive(w);
  }

  /** A command comes to a stage exactly when something brings it there; a start is the next command's. */
  lemma StageComesExactlyWhen(w: World, e: Event, stage: Stage)
    requires InTurn(w) && stage != w.pc.stage
    ensures Next(w, e).pc.Working? && Next(w, e).pc.stage == stage <==> ComesBecause(w, e, stage)
    ensures ComesBecause(w, e, stage) ==>
              Next(w, e).pc == Working(w.pc.items, if stage.Start? then w.pc.k + 1 else w.pc.k, stage)
  {
    RowIsLive(w);
  }

  /** Each request is logged when it is made, whatever is answered; a completion when the Gateway made it. */
  lemma RequestsAreLogged(w: World, e: Event)
    requires InTurn(w)
    ensures
      var l, l', id, s := w.logs, Next(w, e).logs, Task(w), w.pc.stage;
      && l'.retries == l.retries + (if s.Start? && e.RetryReplied? then [(id, Generation(w.journal, id))] else [])
      && l'.rekeys == l.rekeys + (if s.Reserved? && e.RekeyReplied? then [(id, s.generation, s.attempt)] else [])
      && l'.expired ==
         l.expired + (if s.Reserved? && e == RekeyReplied(ReservationExpired) then [(id, s.generation)] else [])
      && |l'.acks| == |l.acks| + if s.Handled? && e.AckReplied? && !e.ack.AckRefused? && Waits(w, id) then 1 else 0
  {
    RowIsLive(w);
  }

  /** A step writes at most one row of the journal: the next generation, the completion, or the cursor. */
  lemma JournalWrittenExactlyWhen(w: World, e: Event)
    requires InTurn(w)
    ensures
      var j, j', id, s := w.journal, Next(w, e).journal, Task(w), w.pc.stage;
      if s.ReservationLost? && e.WriteGeneration? then
        j' == j["command:" + id := Rekey(s.generation + 1, s.attempt, false)]
      else if s.Committed? && e.WriteCompletion? then
        j' == j["command:" + id := Rekey(s.generation, s.attempt, true)]
      else if s.Acknowledged? && e.WriteCursor? then j' == j["last_command" := Cursor(id)]
      else j' == j
  {
  }

  /** With no page, only a poll that finds a waiting command takes one, and from its first command. */
  lemma PageTakenExactlyWhen(w: World, e: Event)
    requires w.pc.Idle?
    ensures
      Next(w, e).pc.Working? <==>
      e.Poll? && e.limit > 0 && exists i :: 0 <= i < |w.commands| && w.commands[i].status.Pending?
    ensures Next(w, e).pc.Working? ==>
              Next(w, e).pc.k == 0 && Next(w, e).pc.stage.Start? && 0 < |Next(w, e).pc.items| <= e.limit
    ensures Next(w, e).journal == w.journal && Next(w, e).logs == w.logs && Next(w, e).attempts == w.attempts
  {
    if e.Poll? {
      PendingsEmpty(w.commands);
    }
  }

  lemma {:induction false} PendingsEmpty(cs: seq<Command>)
    ensures Pendings(cs) != [] <==> exists i :: 0 <= i < |cs| && cs[i].status.Pending?
  {
    if cs != [] {
      var front := cs[..|cs| - 1];
      PendingsEmpty(front);
      forall i | 0 <= i < |front|
        ensures front[i] == cs[i]
      {
      }
      if cs[|cs| - 1].status.Pending? {
        assert |Pendings(cs)| == |Pendings(front)| + 1;
      } else if i :| 0 <= i < |cs| && cs[i].status.Pending? {
        assert front[i].status.Pending?;
      }
    }
  }
}
