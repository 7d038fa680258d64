/**
 The Home Broker's command loop (src/vgen/broker/daemon.py), its journal (journal.py) and its
 task-rekey handler (rekey.py) as one state machine.  The Gateway is the environment: it hands out
 pending commands in order (src/vgen/gateway/repository.py), may refuse any request or lose any
 reply, may let commands expire, and answers a repeated retry key with the attempt it first made.
 The daemon may be killed before any step.
 */
module BrokerModel {
  import opened Common

  type Id = string

  /**
   One place in the Gateway's table, with its stamp.  A command that expired and is queued again gets a new place
   at the end, and its old one is `Moved`; the Gateway's row for an id is the last place with it.
   */
  datatype Status = Pending | Completed | Expired | Moved
  datatype Command = Command(id: Id, status: Status, at: int)

  /** The values the broker keeps in the journal's state table. */
  datatype Value = Cursor(command: Id) | Rekey(generation: int, attempt: string, completed: bool)

  type Journal = map<string, Value>

  const CURSOR := "last_command"

  function StateKey(id: Id): string {
    "command:" + id
  }

  /** The retry generation a handler reads for a command: 0 unless a valid one is stored. */
  function Generation(j: Journal, id: Id): nat {
    if StateKey(id) in j && j[StateKey(id)].Rekey? && j[StateKey(id)].generation >= 0
    then j[StateKey(id)].generation
    else 0
  }

  /** Where the daemon stands: position `k` of the polled items, and how far that command got. */
  datatype Stage =
    | Start
    | Reserved(generation: nat, attempt: string)
    | ReservationLost(generation: nat, attempt: string)
    | Committed(generation: nat, attempt: string)
    | Handled
    | Acknowledged

  datatype Pc = Idle | Working(items: seq<nat>, k: nat, stage: Stage)

  /** Every request that mattered, in the order it was made. */
  datatype Logs = Logs(
    retries: seq<(Id, nat)>,
    rekeys: seq<(Id, nat, string)>,
    expired: seq<(Id, nat)>,
    acks: seq<nat>)

  datatype World = World(
    commands: seq<Command>,
    attempts: map<(Id, nat), string>,
    journal: Journal,
    pc: Pc,
    logs: Logs)

  datatype RekeyReply = RekeyOk | ReservationExpired | RekeyRefused
  datatype AckReply = AckOk | AckLost | AckRefused

  datatype Event =
    | Enqueue(id: Id, at: int)
    | Expire(i: nat)
    | Requeue(i: nat, at: int)
    | Poll(limit: nat)
    | HandlerSkips
    | HandlerFails
    | RetryReplied(attempt: Option<string>)
    | RekeyReplied(rekey: RekeyReply)
    | WriteGeneration
    | WriteCompletion
    | AckReplied(ack: AckReply)
    | WriteCursor
    | Crash

  /** Place i is handed out before place j: ORDER BY created_at, equal stamps in the order they were queued. */
  predicate Before(cs: seq<Command>, i: nat, j: nat)
    requires i < |cs| && j < |cs|
  {
    cs[i].at < cs[j].at || (cs[i].at == cs[j].at && i < j)
  }

  /** The items with place n put in by its stamp, after those with the same. */
  function Placed(cs: seq<Command>, items: seq<nat>, n: nat): (r: seq<nat>)
    requires n < |cs| && forall i :: 0 <= i < |items| ==> items[i] < |cs|
    ensures |r| == |items| + 1 && forall i :: 0 <= i < |r| ==> r[i] < |cs|
  {
    if items == [] || cs[items[|items| - 1]].at <= cs[n].at then items + [n]
    else Placed(cs, items[..|items| - 1], n) + [items[|items| - 1]]
  }

  /** The pending places, by their stamps. */
  function Pendings(cs: seq<Command>): (r: seq<nat>)
    ensures |r| <= |cs| && forall i :: 0 <= i < |r| ==> r[i] < |cs|
  {
    if cs == [] then []
    else
      var n, front := |cs| - 1, Pendings(cs[..|cs| - 1]);
      if cs[n].status.Pending? then Placed(cs, front, n) else front
  }

  /** The place of the row with this id: the last one, or -1. */
  function Live(cs: seq<Command>, id: Id): (m: int)
    ensures -1 <= m < |cs| && (m >= 0 ==> cs[m].id == id)
    ensures forall j :: m < j < |cs| ==> cs[j].id != id
  {
    if cs == [] then -1
    else if cs[|cs| - 1].id == id then |cs| - 1
    else Live(cs[..|cs| - 1], id)
  }

  function Prefix(s: seq<nat>, limit: nat): seq<nat> {
    if limit < |s| then s[..limit] else s
  }

  function Begin(w: World, limit: nat): World {
    var items := Prefix(Pendings(w.commands), limit);
    if items == [] then w else w.(pc := Working(items, 0, Start))
  }

  ghost predicate KnownId(cs: seq<Command>, id: Id) {
    exists i :: 0 <= i < |cs| && cs[i].id == id
  }

  function Requeued(cs: seq<Command>, i: nat, at: int): seq<Command>
    requires i < |cs|
  {
    cs[i := cs[i].(status := Moved)] + [Command(cs[i].id, Pending, at)]
  }

  ghost function Next(w: World, e: Event): World {
    match e
    case Enqueue(id, at) =>
      if id == "" || KnownId(w.commands, id) then w else w.(commands := w.commands + [Command(id, Pending, at)])
    case Expire(i) =>
      if i < |w.commands| && w.commands[i].status.Pending?
      then w.(commands := w.commands[i := w.commands[i].(status := Expired)]) else w
    case Requeue(i, at) =>
      if i < |w.commands| && w.commands[i].status.Expired? then w.(commands := Requeued(w.commands, i, at)) else w
    case Poll(limit) => if w.pc.Idle? then Begin(w, limit) else w
    case Crash => w.(pc := Idle)
    case _ =>
      if w.pc.Idle? || w.pc.k >= |w.pc.items| || w.pc.items[w.pc.k] >= |w.commands| then w else Work(w, e)
  }

  function At(w: World, stage: Stage): World
    requires w.pc.Working?
  {
    w.(pc := w.pc.(stage := stage))
  }

  /** The steps of `_execute` and of the rekey handler it calls. */
  function Work(w: World, e: Event): World
    requires w.pc.Working? && w.pc.k < |w.pc.items| && w.pc.items[w.pc.k] < |w.commands|
  {
    var n := w.pc.items[w.pc.k];
    var id := w.commands[n].id;
    var stage := w.pc.stage;
    match e
    case HandlerSkips => if stage.Start? then At(w, Handled) else w
    case HandlerFails => if stage.Start? || stage.Reserved? then w.(pc := Idle) else w
    case RetryReplied(reply) => if stage.Start? then Retry(w, id, reply) else w
    case RekeyReplied(reply) => if stage.Reserved? then RekeyTask(w, id, reply) else w
    case WriteGeneration =>
      if stage.ReservationLost?
      then w.(journal := w.journal[StateKey(id) := Rekey(stage.generation + 1, stage.attempt, false)], pc := Idle)
      else w
    case WriteCompletion =>
      if stage.Committed?
      then At(w.(journal := w.journal[StateKey(id) := Rekey(stage.generation, stage.attempt, true)]), Handled)
      else w
    case AckReplied(reply) => if stage.Handled? then Acknowledge(w, n, reply) else w
    case WriteCursor =>
      if stage.Acknowledged?
      then w.(journal := w.journal[CURSOR := Cursor(id)],
              pc := if w.pc.k + 1 < |w.pc.items| then Working(w.pc.items, w.pc.k + 1, Start) else Idle)
      else w
    case _ => w
  }

  /** POST retry under the key of the stored generation; a known key yields its first attempt. */
  function Retry(w: World, id: Id, reply: Option<string>): World
    requires w.pc.Working?
  {
    var g := Generation(w.journal, id);
    var w1 := w.(logs := w.logs.(retries := w.logs.retries + [(id, g)]));
    if reply.None? then w1.(pc := Idle)
    else
      var attempt := if (id, g) in w.attempts then w.attempts[(id, g)] else reply.value;
      At(w1.(attempts := w.attempts[(id, g) := attempt]), Reserved(g, attempt))
  }

  /** POST rekey under the key of the command and attempt. */
  function RekeyTask(w: World, id: Id, reply: RekeyReply): World
    requires w.pc.Working? && w.pc.stage.Reserved?
  {
    var g, attempt := w.pc.stage.generation, w.pc.stage.attempt;
    var logs := w.logs.(rekeys := w.logs.rekeys + [(id, g, attempt)]);
    match reply
    case RekeyOk => At(w.(logs := logs), Committed(g, attempt))
    case ReservationExpired =>
      At(w.(logs := logs.(expired := logs.expired + [(id, g)])), ReservationLost(g, attempt))
    case RekeyRefused => w.(logs := logs, pc := Idle)
  }

  /** POST complete, by id: the Gateway completes a pending row once; its reply may be lost. */
  function Acknowledge(w: World, n: nat, reply: AckReply): World
    requires w.pc.Working? && n < |w.commands|
  {
    var m := Live(w.commands, w.commands[n].id);
    if reply.AckRefused? || !w.commands[m].status.Pending? then w.(pc := Idle)
    else
      var w1 := w.(commands := w.commands[m := w.commands[m].(status := Completed)],
                   logs := w.logs.(acks := w.logs.acks + [m]));
      if reply.AckOk? then At(w1, Acknowledged) else w1.(pc := Idle)
  }

  ghost function Run(w: World, es: seq<Event>): World {
    if es == [] then w else Next(Run(w, es[..|es| - 1]), es[|es| - 1])
  }

  const FRESH := World([], map[], map[], Idle, Logs([], [], [], []))
}
