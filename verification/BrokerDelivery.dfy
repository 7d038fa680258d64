/**
 The order in which the Home Broker acknowledges commands, and its durable cursor.

 Commands are handed out by their stamps.  The cursor has nothing waiting before it in every run in which no
 command is queued, for the first time or again, where it overtakes what the daemon has ahead of it; and a
 command queued like that can always be followed by a cursor with a waiting command before it.
 */
module BrokerDelivery {
  import opened BrokerModel
  import opened BrokerRuns

  // ----- places and rows -----

  predicate Waits(cs: seq<Command>, j: nat) {
    j < |cs| && cs[j].status.Pending?
  }

  /** Nothing waits up to place n. */
  ghost predicate DoneUpTo(cs: seq<Command>, n: nat)
    requires n < |cs|
  {
    forall j: nat :: Waits(cs, j) ==> Before(cs, n, j)
  }

  ghost predicate SortedBy(cs: seq<Command>, s: seq<nat>) {
    && (forall i :: 0 <= i < |s| ==> s[i] < |cs|)
    && (forall i, j :: 0 <= i < j < |s| ==> Before(cs, s[i], s[j]))
  }

  /** An id has one place that was not moved, and it is the last. */
  ghost predicate PlacesOk(cs: seq<Command>) {
    && (forall i, j :: 0 <= i < j < |cs| && cs[i].id == cs[j].id ==> cs[i].status.Moved?)
    && (forall i :: 0 <= i < |cs| && cs[i].status.Moved? ==> i < Live(cs, cs[i].id))
  }

  /** The Gateway's row for the command that was polled at place n. */
  function Row(cs: seq<Command>, n: nat): (m: nat)
    requires n < |cs|
    ensures n <= m < |cs| && cs[m].id == cs[n].id
  {
    Live(cs, cs[n].id)
  }

  lemma RowIs(cs: seq<Command>, n: nat)
    requires n < |cs| && PlacesOk(cs) && !cs[n].status.Moved?
    ensures Row(cs, n) == n
  {
  }

  lemma RowUnique(cs: seq<Command>, n: nat, m: nat)
    requires n < |cs| && m < |cs| && cs[m].id == cs[n].id && forall j :: m < j < |cs| ==> cs[j].id != cs[n].id
    ensures Row(cs, n) == m
  {
  }

  // ----- the items of a poll -----

  /** Different items are different commands. */
  ghost predicate DistinctItems(cs: seq<Command>, items: seq<nat>) {
    && (forall i :: 0 <= i < |items| ==> items[i] < |cs|)
    && (forall i, j :: 0 <= i < j < |items| ==> cs[items[i]].id != cs[items[j]].id)
  }

  /** Items f to j can all be acknowledged as things stand. */
  ghost predicate Chain(cs: seq<Command>, items: seq<nat>, f: nat, j: nat)
    requires DistinctItems(cs, items) && j < |items|
  {
    forall i :: f <= i <= j ==> Waits(cs, Row(cs, items[i]))
  }

  /** Whatever waits before the row of item j is the row of an earlier item. */
  ghost predicate OnlyItemsBefore(cs: seq<Command>, items: seq<nat>, f: nat, j: nat)
    requires DistinctItems(cs, items) && j < |items|
  {
    forall y: nat :: Waits(cs, y) && Before(cs, y, Row(cs, items[j])) ==>
      exists i :: f <= i < j && Row(cs, items[i]) == y
  }

  /** Every item the daemon can still come to is preceded only by items it comes to before. */
  ghost predicate InTurn(cs: seq<Command>, items: seq<nat>, f: nat)
    requires DistinctItems(cs, items)
  {
    forall j :: f <= j < |items| && Chain(cs, items, f, j) ==> OnlyItemsBefore(cs, items, f, j)
  }

  /** The first item not yet acknowledged. */
  function First(pc: Pc): nat
    requires pc.Working?
  {
    if pc.stage.Acknowledged? then pc.k + 1 else pc.k
  }

  // ----- what every run keeps -----

  ghost predicate Names(cs: seq<Command>, n: nat, id: Id) {
    n < |cs| && cs[n].id == id && cs[n].status.Completed?
  }

  ghost predicate BaseInv(w: World) {
    && InRange(w) && PlacesOk(w.commands)
    && (w.pc.Working? ==> DistinctItems(w.commands, w.pc.items))
    && (w.pc.Working? && w.pc.stage.Acknowledged? ==> w.commands[Row(w.commands, w.pc.items[w.pc.k])].status.Completed?)
    && AcksAre(w.commands, w.logs.acks)
    && CursorNames(w.commands, w.journal)
  }

  /** The cursor, once written, names a completed command. */
  ghost predicate CursorNames(cs: seq<Command>, j: Journal) {
    CURSOR in j ==> j[CURSOR].Cursor? && exists n: nat :: Names(cs, n, j[CURSOR].command)
  }

  /** The acknowledged places are the completed ones. */
  ghost predicate AcksAre(cs: seq<Command>, acks: seq<nat>) {
    && (forall i :: 0 <= i < |acks| ==> acks[i] < |cs| && cs[acks[i]].status.Completed?)
    && (forall j: nat :: j < |cs| && cs[j].status.Completed? ==> j in acks)
  }

  // ----- and what the order adds -----

  /** The cursor names a completed command up to which nothing waits. */
  ghost predicate CursorOk(cs: seq<Command>, j: Journal) {
    CURSOR in j ==> j[CURSOR].Cursor? && exists n: nat :: Names(cs, n, j[CURSOR].command) && DoneUpTo(cs, n)
  }

  ghost predicate AcksInOrder(cs: seq<Command>, acks: seq<nat>) {
    SortedBy(cs, acks) && forall i :: 0 <= i < |acks| ==> DoneUpTo(cs, acks[i])
  }

  ghost predicate TurnOk(cs: seq<Command>, pc: Pc) {
    pc.Working? && !pc.stage.ReservationLost? ==>
      && pc.k < |pc.items| && DistinctItems(cs, pc.items) && InTurn(cs, pc.items, First(pc))
      && (pc.stage.Acknowledged? ==> DoneUpTo(cs, Row(cs, pc.items[pc.k])))
  }

  ghost predicate OrderInv(w: World) {
    TurnOk(w.commands, w.pc) && CursorOk(w.commands, w.journal)
  }

  // ----- changes of the table -----

  /** Places are only appended, and one that stopped waiting never waits again. */
  ghost predicate Later(cs: seq<Command>, cs': seq<Command>) {
    && |cs| <= |cs'|
    && (forall j :: 0 <= j < |cs| ==> cs'[j].id == cs[j].id && cs'[j].at == cs[j].at)
    && (forall j: nat :: j < |cs| && Waits(cs', j) ==> Waits(cs, j))
    && (forall j :: 0 <= j < |cs| && cs[j].status.Completed? ==> cs'[j].status.Completed?)
  }

  /** What was appended comes after place n. */
  ghost predicate NewAfter(cs: seq<Command>, cs': seq<Command>, n: nat) {
    forall j :: |cs| <= j < |cs'| && n < |cs'| ==> Before(cs', n, j)
  }

  lemma LaterKeepsDone(cs: seq<Command>, cs': seq<Command>, n: nat)
    requires Later(cs, cs') && n < |cs| && DoneUpTo(cs, n) && NewAfter(cs, cs', n)
    ensures DoneUpTo(cs', n)
  {
  }

  lemma LaterKeepsCursor(cs: seq<Command>, cs': seq<Command>, j: Journal)
    requires CursorOk(cs, j) && Later(cs, cs')
    requires CURSOR in j && j[CURSOR].Cursor? ==>
      forall n: nat :: Names(cs, n, j[CURSOR].command) ==> NewAfter(cs, cs', n)
    ensures CursorOk(cs', j)
  {
    if CURSOR in j {
      var n: nat :| Names(cs, n, j[CURSOR].command) && DoneUpTo(cs, n);
      LaterKeepsDone(cs, cs', n);
      assert Names(cs', n, j[CURSOR].command);
    }
  }

  lemma LaterKeepsName(cs: seq<Command>, cs': seq<Command>, j: Journal)
    requires CursorNames(cs, j) && Later(cs, cs')
    ensures CursorNames(cs', j)
  {
    if CURSOR in j {
      var n: nat :| Names(cs, n, j[CURSOR].command);
      assert Names(cs', n, j[CURSOR].command);
    }
  }

  lemma LaterKeepsAcks(cs: seq<Command>, cs': seq<Command>, acks: seq<nat>)
    requires Later(cs, cs') && AcksInOrder(cs, acks) && forall i :: 0 <= i < |acks| ==> NewAfter(cs, cs', acks[i])
    ensures AcksInOrder(cs', acks)
  {
    forall i | 0 <= i < |acks|
      ensures DoneUpTo(cs', acks[i])
    {
      LaterKeepsDone(cs, cs', acks[i]);
    }
  }

  /** Rows that stay where they are keep the items in turn. */
  lemma LaterKeepsTurn(cs: seq<Command>, cs': seq<Command>, items: seq<nat>, f: nat)
    requires Later(cs, cs') && |cs'| == |cs| && DistinctItems(cs, items) && InTurn(cs, items, f)
    requires forall i :: 0 <= i < |items| ==> Row(cs', items[i]) == Row(cs, items[i])
    ensures DistinctItems(cs', items) && InTurn(cs', items, f)
  {
    forall j | f <= j < |items| && Chain(cs', items, f, j)
      ensures OnlyItemsBefore(cs', items, f, j)
    {
      assert Chain(cs, items, f, j);
      forall y: nat | Waits(cs', y) && Before(cs', y, Row(cs', items[j]))
        ensures exists i :: f <= i < j && Row(cs', items[i]) == y
      {
        assert Waits(cs, y);
        var i :| f <= i < j && Row(cs, items[i]) == y;
        assert Row(cs', items[i]) == y;
      }
    }
  }

  lemma SameIdsSameRows(cs: seq<Command>, cs': seq<Command>, n: nat)
    requires n < |cs| <= |cs'| && (forall j :: 0 <= j < |cs| ==> cs'[j].id == cs[j].id)
    requires forall j :: |cs| <= j < |cs'| ==> cs'[j].id != cs[n].id
    ensures Row(cs', n) == Row(cs, n)
  {
    RowUnique(cs', n, Row(cs, n));
  }

  lemma PlacesKept(cs: seq<Command>, cs': seq<Command>)
    requires PlacesOk(cs) && |cs'| == |cs|
    requires forall j :: 0 <= j < |cs| ==> cs'[j].id == cs[j].id && (cs'[j].status.Moved? <==> cs[j].status.Moved?)
    ensures PlacesOk(cs')
  {
    forall i | 0 <= i < |cs'| && cs'[i].status.Moved?
      ensures i < Live(cs', cs'[i].id)
    {
      SameIdsSameRows(cs, cs', i);
    }
  }

  /** The Gateway changed its table while the daemon stood still. */
  ghost predicate Changed(w: World, cs': seq<Command>) {
    && Later(w.commands, cs') && PlacesOk(cs')
    && (forall j :: 0 <= j < |cs'| && cs'[j].status.Completed? ==> j < |w.commands| && w.commands[j].status.Completed?)
    && (w.pc.Working? && w.pc.stage.Acknowledged? && InRange(w) ==>
         Row(cs', w.pc.items[w.pc.k]) == Row(w.commands, w.pc.items[w.pc.k]))
  }

  lemma ChangeBase(w: World, cs': seq<Command>)
    requires BaseInv(w) && Changed(w, cs')
    ensures BaseInv(w.(commands := cs'))
  {
    LaterKeepsName(w.commands, cs', w.journal);
  }

  /** A row the cursor names, or that the daemon is about to write as the cursor. */
  ghost predicate Named(w: World, n: nat)
    requires BaseInv(w)
  {
    || (CURSOR in w.journal && Names(w.commands, n, w.journal[CURSOR].command))
    || (w.pc.Working? && w.pc.stage.Acknowledged? && n == Row(w.commands, w.pc.items[w.pc.k]))
  }

  lemma ChangeOrder(w: World, cs': seq<Command>)
    requires BaseInv(w) && OrderInv(w) && Changed(w, cs') && BaseInv(w.(commands := cs'))
    requires w.pc.Working? && !w.pc.stage.ReservationLost? ==> InTurn(cs', w.pc.items, First(w.pc))
    requires forall n: nat :: Named(w, n) ==> NewAfter(w.commands, cs', n)
    ensures OrderInv(w.(commands := cs'))
  {
    forall n: nat | CURSOR in w.journal && Names(w.commands, n, w.journal[CURSOR].command)
      ensures NewAfter(w.commands, cs', n)
    {
      assert Named(w, n);
    }
    LaterKeepsCursor(w.commands, cs', w.journal);
    if w.pc.Working? && w.pc.stage.Acknowledged? {
      assert Named(w, Row(w.commands, w.pc.items[w.pc.k]));
      LaterKeepsDone(w.commands, cs', Row(w.commands, w.pc.items[w.pc.k]));
    }
  }

  /** Nothing was appended and no row moved. */
  lemma SameRowsOrder(w: World, cs': seq<Command>)
    requires BaseInv(w) && OrderInv(w) && Changed(w, cs') && BaseInv(w.(commands := cs')) && |cs'| == |w.commands|
    requires forall n: nat :: n < |w.commands| ==> Row(cs', n) == Row(w.commands, n)
    ensures OrderInv(w.(commands := cs'))
  {
    if w.pc.Working? && !w.pc.stage.ReservationLost? {
      LaterKeepsTurn(w.commands, cs', w.pc.items, First(w.pc));
    }
    ChangeOrder(w, cs');
  }

  lemma ExpireOk(w: World, i: nat)
    requires BaseInv(w) && i < |w.commands| && w.commands[i].status.Pending?
    ensures
      var w' := w.(commands := w.commands[i := w.commands[i].(status := Expired)]);
      BaseInv(w') && (OrderInv(w) ==> OrderInv(w'))
  {
    var cs' := w.commands[i := w.commands[i].(status := Expired)];
    PlacesKept(w.commands, cs');
    forall n: nat | n < |w.commands|
      ensures Row(cs', n) == Row(w.commands, n)
    {
      SameIdsSameRows(w.commands, cs', n);
    }
    assert Changed(w, cs');
    ChangeBase(w, cs');
    if OrderInv(w) {
      SameRowsOrder(w, cs');
    }
  }

  // ----- a command queued, for the first time or again -----

  ghost predicate Adds(w: World, e: Event) {
    || (e.Enqueue? && e.id != "" && !KnownId(w.commands, e.id))
    || (e.Requeue? && e.i < |w.commands| && w.commands[e.i].status.Expired?)
  }

  ghost function Added(w: World, e: Event): seq<Command>
    requires Adds(w, e)
  {
    if e.Enqueue? then w.commands + [Command(e.id, Pending, e.at)] else Requeued(w.commands, e.i, e.at)
  }

  lemma EnqueuePlaces(cs: seq<Command>, id: Id, at: int)
    requires PlacesOk(cs) && !KnownId(cs, id)
    ensures
      var cs' := cs + [Command(id, Pending, at)];
      && PlacesOk(cs') && Later(cs, cs')
      && (forall n: nat :: n < |cs| ==> Row(cs', n) == Row(cs, n))
  {
    var cs' := cs + [Command(id, Pending, at)];
    forall n: nat | n < |cs|
      ensures Row(cs', n) == Row(cs, n)
    {
      SameIdsSameRows(cs, cs', n);
    }
  }

  lemma RequeueRows(cs: seq<Command>, i: nat, at: int, n: nat)
    requires i < |cs| && n < |cs|
    ensures Row(Requeued(cs, i, at), n) == if cs[n].id == cs[i].id then |cs| else Row(cs, n)
  {
    var cs' := Requeued(cs, i, at);
    if cs[n].id == cs[i].id {
      RowUnique(cs', n, |cs|);
    } else {
      SameIdsSameRows(cs, cs', n);
    }
  }

  lemma RequeuePlaces(cs: seq<Command>, i: nat, at: int)
    requires PlacesOk(cs) && i < |cs| && cs[i].status.Expired?
    ensures PlacesOk(Requeued(cs, i, at)) && Later(cs, Requeued(cs, i, at))
  {
    var cs' := Requeued(cs, i, at);
    RowIs(cs, i);
    forall a, b | 0 <= a < b < |cs'| && cs'[a].id == cs'[b].id
      ensures cs'[a].status.Moved?
    {
      if b == |cs| && a != i {
        assert cs[a].id == cs[i].id;
      }
    }
    forall a | 0 <= a < |cs'| && cs'[a].status.Moved?
      ensures a < Live(cs', cs'[a].id)
    {
      RequeueRows(cs, i, at, a);
    }
  }

  lemma AddBase(w: World, e: Event)
    requires BaseInv(w) && Adds(w, e)
    ensures Next(w, e) == w.(commands := Added(w, e)) && BaseInv(Next(w, e)) && Changed(w, Added(w, e))
  {
    var cs := w.commands;
    if e.Enqueue? {
      EnqueuePlaces(cs, e.id, e.at);
    } else {
      RequeuePlaces(cs, e.i, e.at);
      RowIs(cs, e.i);
      if w.pc.Working? && w.pc.stage.Acknowledged? {
        RequeueRows(cs, e.i, e.at, w.pc.items[w.pc.k]);
      }
    }
    ChangeBase(w, Added(w, e));
  }

  /** The daemon can come to item j as things stand. */
  ghost predicate ComesTo(cs: seq<Command>, pc: Pc, j: nat) {
    && pc.Working? && !pc.stage.ReservationLost? && First(pc) <= j < |pc.items|
    && DistinctItems(cs, pc.items) && Chain(cs, pc.items, First(pc), j)
  }

  /** And y waits before item j and is no item the daemon comes to earlier. */
  ghost predicate Overtakes(cs: seq<Command>, pc: Pc, j: nat, y: nat) {
    && ComesTo(cs, pc, j) && Waits(cs, y) && Before(cs, y, Row(cs, pc.items[j]))
    && forall a :: First(pc) <= a < j ==> Row(cs, pc.items[a]) != y
  }

  lemma InTurnNotOvertaken(cs: seq<Command>, pc: Pc, j: nat, y: nat)
    requires TurnOk(cs, pc)
    ensures !Overtakes(cs, pc, j, y)
  {
  }

  /** With the command queued, something waits before the cursor, or before what the daemon has ahead of it. */
  ghost predicate Harmful(w: World, e: Event) {
    && BaseInv(w) && Adds(w, e)
    && (|| (exists n: nat :: Named(w, n) && e.at < w.commands[n].at)
        || (exists j: nat, y: nat :: Overtakes(Added(w, e), w.pc, j, y)))
  }

  lemma NotOvertaken(cs: seq<Command>, pc: Pc)
    requires pc.Working? && !pc.stage.ReservationLost? && DistinctItems(cs, pc.items)
    requires !exists j: nat, y: nat :: Overtakes(cs, pc, j, y)
    ensures InTurn(cs, pc.items, First(pc))
  {
    var items, f := pc.items, First(pc);
    forall j | f <= j < |items| && Chain(cs, items, f, j)
      ensures OnlyItemsBefore(cs, items, f, j)
    {
      forall y: nat | Waits(cs, y) && Before(cs, y, Row(cs, items[j]))
        ensures exists i :: f <= i < j && Row(cs, items[i]) == y
      {
        assert !Overtakes(cs, pc, j, y);
      }
    }
  }

  lemma AddOrder(w: World, e: Event)
    requires BaseInv(w) && OrderInv(w) && Adds(w, e) && !Harmful(w, e)
    ensures OrderInv(Next(w, e))
  {
    AddBase(w, e);
    var cs' := Added(w, e);
    if w.pc.Working? && !w.pc.stage.ReservationLost? {
      NotOvertaken(cs', w.pc);
    }
    forall n: nat | Named(w, n)
      ensures NewAfter(w.commands, cs', n)
    {
      assert e.at >= w.commands[n].at;
    }
    ChangeOrder(w, cs');
  }

  // ----- the poll -----

  lemma {:induction false} PlacedIs(cs: seq<Command>, items: seq<nat>, n: nat)
    requires n < |cs| && SortedBy(cs, items) && forall i :: 0 <= i < |items| ==> items[i] < n
    ensures SortedBy(cs, Placed(cs, items, n))
    ensures forall j: nat :: j in Placed(cs, items, n) <==> j in items || j == n
  {
    if items != [] {
      var front, last := items[..|items| - 1], items[|items| - 1];
      assert items == front + [last];
      if cs[last].at <= cs[n].at {
        LastPlaced(cs, items, n);
      } else {
        PlacedIs(cs, front, n);
        LastPlaced(cs, Placed(cs, front, n), last);
      }
    }
  }

  lemma LastPlaced(cs: seq<Command>, items: seq<nat>, n: nat)
    requires n < |cs| && SortedBy(cs, items) && forall j: nat :: j in items ==> j < |cs| && Before(cs, j, n)
    ensures SortedBy(cs, items + [n])
    ensures forall j: nat :: j in items + [n] <==> j in items || j == n
  {
    assert forall i :: 0 <= i < |items| ==> items[i] in items;
  }

  lemma {:induction false} PendingsAre(cs: seq<Command>)
    ensures SortedBy(cs, Pendings(cs))
    ensures forall j: nat :: j in Pendings(cs) <==> Waits(cs, j)
  {
    if cs != [] {
      var n := |cs| - 1;
      PendingsAre(cs[..n]);
      assert forall j: nat :: j < n ==> (Waits(cs, j) <==> Waits(cs[..n], j));
      assert forall i: nat, j: nat :: i < n && j < n ==> Before(cs, i, j) == Before(cs[..n], i, j);
      if cs[n].status.Pending? {
        PlacedIs(cs, Pendings(cs[..n]), n);
      }
    }
  }

  lemma PollItems(cs: seq<Command>, limit: nat)
    requires PlacesOk(cs)
    ensures
      var items := Prefix(Pendings(cs), limit);
      && DistinctItems(cs, items) && SortedBy(cs, items)
      && (forall i :: 0 <= i < |items| ==> Waits(cs, items[i]) && Row(cs, items[i]) == items[i])
  {
    PendingsAre(cs);
    var items := Prefix(Pendings(cs), limit);
    forall i | 0 <= i < |items|
      ensures Waits(cs, items[i]) && Row(cs, items[i]) == items[i]
    {
      assert Pendings(cs)[i] in Pendings(cs);
      RowIs(cs, items[i]);
    }
    forall i, j | 0 <= i < j < |items|
      ensures cs[items[i]].id != cs[items[j]].id
    {
      assert Before(cs, items[i], items[j]);
    }
  }

  lemma PollTurn(cs: seq<Command>, limit: nat)
    requires PlacesOk(cs)
    ensures
      var items := Prefix(Pendings(cs), limit);
      DistinctItems(cs, items) && InTurn(cs, items, 0)
  {
    PollItems(cs, limit);
    PendingsAre(cs);
    var ps, items := Pendings(cs), Prefix(Pendings(cs), limit);
    forall j, y: nat | 0 <= j < |items| && Waits(cs, y) && Before(cs, y, Row(cs, items[j]))
      ensures exists i :: 0 <= i < j && Row(cs, items[i]) == y
    {
      var p :| 0 <= p < |ps| && ps[p] == y;
      assert p < j;
      assert Row(cs, items[p]) == y;
    }
  }

  lemma PollOk(w: World, limit: nat)
    requires BaseInv(w) && w.pc.Idle?
    ensures BaseInv(Begin(w, limit)) && (OrderInv(w) ==> OrderInv(Begin(w, limit)))
  {
    PollItems(w.commands, limit);
    PollTurn(w.commands, limit);
  }

  // ----- acknowledging -----

  function Completing(cs: seq<Command>, m: nat): seq<Command>
    requires m < |cs|
  {
    cs[m := cs[m].(status := Completed)]
  }

  lemma CompletingRows(cs: seq<Command>, m: nat)
    requires PlacesOk(cs) && m < |cs| && cs[m].status.Pending?
    ensures PlacesOk(Completing(cs, m)) && Later(cs, Completing(cs, m))
    ensures forall n: nat :: n < |cs| ==> Row(Completing(cs, m), n) == Row(cs, n)
  {
    var cs' := Completing(cs, m);
    PlacesKept(cs, cs');
    forall n: nat | n < |cs|
      ensures Row(cs', n) == Row(cs, n)
    {
      SameIdsSameRows(cs, cs', n);
    }
  }

  lemma AcksExtended(cs: seq<Command>, acks: seq<nat>, m: nat)
    requires AcksAre(cs, acks) && m < |cs| && cs[m].status.Pending?
    ensures AcksAre(Completing(cs, m), acks + [m])
  {
    var cs', acks' := Completing(cs, m), acks + [m];
    forall j: nat | j < |cs'| && cs'[j].status.Completed?
      ensures j in acks'
    {
      if j == m {
        assert acks'[|acks|] == m;
      } else {
        assert j in acks;
      }
    }
  }

  lemma AcknowledgeBase(w: World, reply: AckReply)
    requires BaseInv(w) && w.pc.Working? && w.pc.stage.Handled?
    ensures BaseInv(Acknowledge(w, w.pc.items[w.pc.k], reply))
  {
    var m := Row(w.commands, w.pc.items[w.pc.k]);
    if !reply.AckRefused? && w.commands[m].status.Pending? {
      CompletingRows(w.commands, m);
      AcksExtended(w.commands, w.logs.acks, m);
      LaterKeepsName(w.commands, Completing(w.commands, m), w.journal);
    }
  }

  /** The item at turn has nothing waiting before its row. */
  lemma TurnIsFirst(cs: seq<Command>, items: seq<nat>, k: nat)
    requires PlacesOk(cs) && DistinctItems(cs, items) && k < |items| && InTurn(cs, items, k)
    requires Waits(cs, Row(cs, items[k]))
    ensures DoneUpTo(Completing(cs, Row(cs, items[k])), Row(cs, items[k]))
  {
    var m := Row(cs, items[k]);
    assert Chain(cs, items, k, k);
    assert OnlyItemsBefore(cs, items, k, k);
    assert forall j: nat :: Waits(Completing(cs, m), j) ==> Waits(cs, j) && j != m;
  }

  /** Once it is acknowledged, the next item is at turn. */
  lemma TurnPasses(cs: seq<Command>, items: seq<nat>, k: nat)
    requires PlacesOk(cs) && DistinctItems(cs, items) && k < |items| && InTurn(cs, items, k)
    requires Waits(cs, Row(cs, items[k]))
    ensures
      var cs' := Completing(cs, Row(cs, items[k]));
      DistinctItems(cs', items) && InTurn(cs', items, k + 1)
  {
    var m, f := Row(cs, items[k]), k + 1;
    var cs' := Completing(cs, m);
    CompletingRows(cs, m);
    forall j | f <= j < |items| && Chain(cs', items, f, j)
      ensures OnlyItemsBefore(cs', items, f, j)
    {
      StillOnlyItems(cs, items, k, j);
    }
  }

  lemma StillOnlyItems(cs: seq<Command>, items: seq<nat>, k: nat, j: nat)
    requires PlacesOk(cs) && DistinctItems(cs, items) && k < j < |items| && InTurn(cs, items, k)
    requires Waits(cs, Row(cs, items[k])) && DistinctItems(Completing(cs, Row(cs, items[k])), items)
    requires Chain(Completing(cs, Row(cs, items[k])), items, k + 1, j)
    ensures OnlyItemsBefore(Completing(cs, Row(cs, items[k])), items, k + 1, j)
  {
    var m := Row(cs, items[k]);
    var cs' := Completing(cs, m);
    CompletingRows(cs, m);
    forall i | k <= i <= j
      ensures Waits(cs, Row(cs, items[i]))
    {
      assert i > k ==> Waits(cs', Row(cs', items[i]));
    }
    assert Chain(cs, items, k, j);
    forall y: nat | Waits(cs', y) && Before(cs', y, Row(cs', items[j]))
      ensures exists i :: k + 1 <= i < j && Row(cs', items[i]) == y
    {
      assert Waits(cs, y);
      var i :| k <= i < j && Row(cs, items[i]) == y;
      assert i != k && Row(cs', items[i]) == y;
    }
  }

  lemma AcknowledgedOrder(w: World, m: nat)
    requires BaseInv(w) && OrderInv(w) && w.pc.Working? && w.pc.stage.Handled?
    requires m == Row(w.commands, w.pc.items[w.pc.k]) && Waits(w.commands, m)
    ensures
      var cs' := Completing(w.commands, m);
      TurnOk(cs', w.pc.(stage := Acknowledged)) && CursorOk(cs', w.journal)
  {
    CompletingRows(w.commands, m);
    TurnIsFirst(w.commands, w.pc.items, w.pc.k);
    TurnPasses(w.commands, w.pc.items, w.pc.k);
    LaterKeepsCursor(w.commands, Completing(w.commands, m), w.journal);
  }

  lemma AcknowledgeOrder(w: World, reply: AckReply)
    requires BaseInv(w) && OrderInv(w) && w.pc.Working? && w.pc.stage.Handled?
    ensures OrderInv(Acknowledge(w, w.pc.items[w.pc.k], reply))
  {
    var m := Row(w.commands, w.pc.items[w.pc.k]);
    if !reply.AckRefused? && w.commands[m].status.Pending? {
      AcknowledgedOrder(w, m);
    }
  }

  lemma WriteCursorBase(w: World)
    requires BaseInv(w) && w.pc.Working? && w.pc.stage.Acknowledged?
    ensures BaseInv(Work(w, WriteCursor))
  {
    var n := w.pc.items[w.pc.k];
    assert Names(w.commands, Row(w.commands, n), w.commands[n].id);
  }

  lemma CursorWritten(cs: seq<Command>, n: nat, j: Journal)
    requires n < |cs| && cs[Row(cs, n)].status.Completed? && DoneUpTo(cs, Row(cs, n))
    ensures CursorOk(cs, j[CURSOR := Cursor(cs[n].id)])
  {
    assert Names(cs, Row(cs, n), cs[n].id);
  }

  lemma WriteCursorOrder(w: World)
    requires BaseInv(w) && OrderInv(w) && w.pc.Working? && w.pc.stage.Acknowledged?
    ensures OrderInv(Work(w, WriteCursor))
  {
    CursorWritten(w.commands, w.pc.items[w.pc.k], w.journal);
  }

  /** Writing a command's own entry does not touch the cursor. */
  lemma WriteStateOk(w: World, id: Id, v: Value)
    requires BaseInv(w)
    ensures
      var w' := w.(journal := w.journal[StateKey(id) := v]);
      BaseInv(w') && (OrderInv(w) ==> OrderInv(w'))
  {
    StateKeysDiffer(id, id);
  }

  /** Only the stage of the current item changes, and not past the acknowledgement. */
  lemma StageOk(w: World, stage: Stage)
    requires BaseInv(w) && w.pc.Working? && !w.pc.stage.Acknowledged? && !w.pc.stage.ReservationLost?
    requires !stage.Acknowledged?
    ensures BaseInv(At(w, stage)) && (OrderInv(w) ==> OrderInv(At(w, stage)))
  {
  }

  lemma ReplyBase(w: World, e: Event)
    requires BaseInv(w) && w.pc.Working? && (e.HandlerSkips? || e.HandlerFails? || e.RetryReplied? || e.RekeyReplied?)
    ensures BaseInv(Work(w, e))
  {
    var w' := Work(w, e);
    assert w'.commands == w.commands && w'.journal == w.journal && w'.logs.acks == w.logs.acks;
    assert w'.pc.Working? ==> w'.pc == w.pc || (w'.pc == w.pc.(stage := w'.pc.stage) && !w'.pc.stage.Acknowledged?);
    SamePlaces(w, w');
  }

  /** Logs and reservations do not matter. */
  lemma SamePlaces(w: World, w': World)
    requires BaseInv(w) && w'.commands == w.commands && w'.journal == w.journal && w'.logs.acks == w.logs.acks
    requires w'.pc.Working? ==> w.pc.Working? && w'.pc == w.pc.(stage := w'.pc.stage)
    requires w'.pc.Working? && w'.pc.stage.Acknowledged? ==> w'.pc == w.pc
    ensures BaseInv(w')
  {
  }

  lemma ReplyOrder(w: World, e: Event)
    requires OrderInv(w) && InRange(w) && w.pc.Working?
    requires e.HandlerSkips? || e.HandlerFails? || e.RetryReplied? || e.RekeyReplied?
    ensures OrderInv(Work(w, e))
  {
  }

  lemma WriteOk(w: World, e: Event)
    requires BaseInv(w) && w.pc.Working? && (e.WriteGeneration? || e.WriteCompletion?)
    ensures BaseInv(Work(w, e)) && (OrderInv(w) ==> OrderInv(Work(w, e)))
  {
    var id, stage := w.commands[w.pc.items[w.pc.k]].id, w.pc.stage;
    if e.WriteGeneration? && stage.ReservationLost? {
      WriteStateOk(w, id, Rekey(stage.generation + 1, stage.attempt, false));
    } else if e.WriteCompletion? && stage.Committed? {
      WriteStateOk(w, id, Rekey(stage.generation, stage.attempt, true));
      StageOk(w.(journal := w.journal[StateKey(id) := Rekey(stage.generation, stage.attempt, true)]), Handled);
    }
  }

  lemma WorkOk(w: World, e: Event)
    requires BaseInv(w) && w.pc.Working?
    ensures BaseInv(Work(w, e)) && (OrderInv(w) ==> OrderInv(Work(w, e)))
  {
    if e.AckReplied? && w.pc.stage.Handled? {
      AcknowledgeBase(w, e.ack);
      if OrderInv(w) {
        AcknowledgeOrder(w, e.ack);
      }
    } else if e.WriteCursor? && w.pc.stage.Acknowledged? {
      WriteCursorBase(w);
      if OrderInv(w) {
        WriteCursorOrder(w);
      }
    } else if e.WriteGeneration? || e.WriteCompletion? {
      WriteOk(w, e);
    } else if e.HandlerSkips? || e.HandlerFails? || e.RetryReplied? || e.RekeyReplied? {
      ReplyBase(w, e);
      if OrderInv(w) {
        ReplyOrder(w, e);
      }
    } else {
      assert Work(w, e) == w;
    }
  }

  // ----- every step -----

  lemma StepBase(w: World, e: Event)
    requires BaseInv(w)
    ensures BaseInv(Next(w, e))
  {
    match e
    case Enqueue(_, _) => if Adds(w, e) { AddBase(w, e); }
    case Expire(i) => if i < |w.commands| && w.commands[i].status.Pending? { ExpireOk(w, i); }
    case Requeue(_, _) => if Adds(w, e) { AddBase(w, e); }
    case Poll(limit) => if w.pc.Idle? { PollOk(w, limit); }
    case Crash =>
    case _ => if w.pc.Working? { WorkOk(w, e); }
  }

  lemma StepOrder(w: World, e: Event)
    requires BaseInv(w) && OrderInv(w) && !Harmful(w, e)
    ensures BaseInv(Next(w, e)) && OrderInv(Next(w, e))
  {
    StepBase(w, e);
    match e
    case Enqueue(_, _) => if Adds(w, e) { AddOrder(w, e); }
    case Expire(i) => if i < |w.commands| && w.commands[i].status.Pending? { ExpireOk(w, i); }
    case Requeue(_, _) => if Adds(w, e) { AddOrder(w, e); }
    case Poll(limit) => if w.pc.Idle? { PollOk(w, limit); }
    case Crash =>
    case _ => if w.pc.Working? { WorkOk(w, e); }
  }

  /**
   Wherever the daemon is killed, the next poll hands out every command that waits, the interrupted one included,
   in the order of the stamps.
   */
  lemma RestartResumes(w: World, limit: nat)
    requires PlacesOk(w.commands) && |Pendings(w.commands)| <= limit
    ensures
      var w' := Next(Next(w, Crash), Poll(limit));
      && w'.commands == w.commands && w'.journal == w.journal && w'.attempts == w.attempts && w'.logs == w.logs
      && (w'.pc.Idle? <==> forall j: nat :: !Waits(w.commands, j))
      && (w'.pc.Working? ==>
           && w'.pc.k == 0 && w'.pc.stage.Start? && SortedBy(w.commands, w'.pc.items)
           && forall j: nat :: j in w'.pc.items <==> Waits(w.commands, j))
  {
    PendingsAre(w.commands);
    if Pendings(w.commands) != [] {
      assert Pendings(w.commands)[0] in Pendings(w.commands);
    }
  }

  // ----- whole runs -----

  ghost predicate HarmlessRun(w: World, es: seq<Event>) {
    forall n :: 0 <= n < |es| ==> !Harmful(Run(w, es[..n]), es[n])
  }

  lemma {:induction false} RunBase(w: World, es: seq<Event>)
    requires BaseInv(w)
    ensures BaseInv(Run(w, es))
  {
    if es != [] {
      RunBase(w, es[..|es| - 1]);
      StepBase(Run(w, es[..|es| - 1]), es[|es| - 1]);
    }
  }

  lemma HarmlessFront(w: World, es: seq<Event>)
    requires es != [] && HarmlessRun(w, es)
    ensures HarmlessRun(w, es[..|es| - 1]) && !Harmful(Run(w, es[..|es| - 1]), es[|es| - 1])
  {
    var n := |es| - 1;
    assert forall i :: 0 <= i < n ==> es[..n][..i] == es[..i];
  }

  lemma {:induction false} RunDelivers(w: World, es: seq<Event>)
    requires BaseInv(w) && OrderInv(w) && HarmlessRun(w, es)
    ensures BaseInv(Run(w, es)) && OrderInv(Run(w, es))
  {
    if es != [] {
      var n := |es| - 1;
      HarmlessFront(w, es);
      RunDelivers(w, es[..n]);
      StepOrder(Run(w, es[..n]), es[n]);
    }
  }

  lemma FreshOk()
    ensures BaseInv(FRESH) && OrderInv(FRESH)
  {
  }

  /**
   The durable cursor names a command, and every command up to it was acknowledged, or had expired there and
   possibly got a later place.
   */
  lemma CursorBehindAcknowledgements(es: seq<Event>)
    requires HarmlessRun(FRESH, es)
    ensures
      var w := Run(FRESH, es);
      CURSOR in w.journal ==> exists n: nat :: CursorAt(w, n) && DoneBehind(w, n)
  {
    FreshOk();
    RunDelivers(FRESH, es);
    var w := Run(FRESH, es);
    if CURSOR in w.journal {
      var n: nat :| Names(w.commands, n, w.journal[CURSOR].command) && DoneUpTo(w.commands, n);
      assert CursorAt(w, n);
      forall j: nat | j < |w.commands| && !Before(w.commands, n, j)
        ensures Settled(w, j)
      {
        assert !Waits(w.commands, j);
      }
    }
  }

  /** The cursor is on place n, and that was acknowledged. */
  ghost predicate CursorAt(w: World, n: nat) {
    && n < |w.commands| && CURSOR in w.journal && w.journal[CURSOR] == Cursor(w.commands[n].id) && n in w.logs.acks
  }

  predicate Settled(w: World, j: nat)
    requires j < |w.commands|
  {
    j in w.logs.acks || w.commands[j].status.Expired? || w.commands[j].status.Moved?
  }

  /** Every place up to n was acknowledged or had expired. */
  ghost predicate DoneBehind(w: World, n: nat)
    requires n < |w.commands|
  {
    forall j: nat :: j < |w.commands| && !Before(w.commands, n, j) ==> Settled(w, j)
  }

  // ----- the order of the acknowledgements -----

  /** The command is queued before one that was acknowledged already. */
  ghost predicate Late(w: World, e: Event) {
    && BaseInv(w) && Adds(w, e) && exists i :: 0 <= i < |w.logs.acks| && e.at < w.commands[w.logs.acks[i]].at
  }

  lemma AddAcksExactlyWhen(w: World, e: Event)
    requires BaseInv(w) && Adds(w, e) && AcksInOrder(w.commands, w.logs.acks)
    ensures AcksInOrder(Added(w, e), w.logs.acks) <==> !Late(w, e)
  {
    AddBase(w, e);
    var cs, cs', acks := w.commands, Added(w, e), w.logs.acks;
    if Late(w, e) {
      var i :| 0 <= i < |acks| && e.at < cs[acks[i]].at;
      assert Waits(cs', |cs|) && !Before(cs', acks[i], |cs|);
    } else {
      forall i | 0 <= i < |acks|
        ensures NewAfter(cs, cs', acks[i])
      {
        assert e.at >= cs[acks[i]].at;
      }
      LaterKeepsAcks(cs, cs', acks);
    }
  }

  lemma AcksExtendedInOrder(cs: seq<Command>, acks: seq<nat>, m: nat)
    requires AcksAre(cs, acks) && AcksInOrder(cs, acks) && Waits(cs, m) && DoneUpTo(Completing(cs, m), m)
    requires Later(cs, Completing(cs, m))
    ensures AcksInOrder(Completing(cs, m), acks + [m])
  {
    var cs' := Completing(cs, m);
    LaterKeepsAcks(cs, cs', acks);
    assert (acks + [m])[|acks|] == m;
    forall i | 0 <= i < |acks|
      ensures Before(cs', acks[i], m)
    {
      assert DoneUpTo(cs, acks[i]);
    }
  }

  lemma AckInOrder(w: World, reply: AckReply)
    requires BaseInv(w) && OrderInv(w) && AcksInOrder(w.commands, w.logs.acks) && w.pc.Working? && w.pc.stage.Handled?
    ensures
      var w' := Acknowledge(w, w.pc.items[w.pc.k], reply);
      AcksInOrder(w'.commands, w'.logs.acks)
  {
    var m := Row(w.commands, w.pc.items[w.pc.k]);
    if !reply.AckRefused? && w.commands[m].status.Pending? {
      CompletingRows(w.commands, m);
      TurnIsFirst(w.commands, w.pc.items, w.pc.k);
      AcksExtendedInOrder(w.commands, w.logs.acks, m);
    }
  }

  lemma ExpireInOrder(cs: seq<Command>, i: nat, acks: seq<nat>)
    requires AcksInOrder(cs, acks) && i < |cs| && cs[i].status.Pending?
    ensures AcksInOrder(cs[i := cs[i].(status := Expired)], acks)
  {
    LaterKeepsAcks(cs, cs[i := cs[i].(status := Expired)], acks);
  }

  /** The other steps touch neither the table nor the log of acknowledgements. */
  lemma OtherSteps(w: World, e: Event)
    requires !Adds(w, e) && !e.Expire? && !(e.AckReplied? && w.pc.Working? && w.pc.stage.Handled?)
    ensures Next(w, e).commands == w.commands && Next(w, e).logs.acks == w.logs.acks
  {
  }

  /** While the cursor is safe, a step keeps the acknowledgements in order exactly when it does not queue too late. */
  lemma StepAcksExactlyWhen(w: World, e: Event)
    requires BaseInv(w) && OrderInv(w) && AcksInOrder(w.commands, w.logs.acks)
    ensures AcksInOrder(Next(w, e).commands, Next(w, e).logs.acks) <==> !Late(w, e)
  {
    if Adds(w, e) {
      AddBase(w, e);
      AddAcksExactlyWhen(w, e);
    } else if e.Expire? {
      if e.i < |w.commands| && w.commands[e.i].status.Pending? {
        ExpireInOrder(w.commands, e.i, w.logs.acks);
      }
    } else if e.AckReplied? && w.pc.Working? && w.pc.stage.Handled? {
      AckInOrder(w, e.ack);
    } else {
      OtherSteps(w, e);
    }
  }

  ghost predicate OnTimeRun(w: World, es: seq<Event>) {
    forall n :: 0 <= n < |es| ==> !Late(Run(w, es[..n]), es[n])
  }

  lemma {:induction false} RunAcksInOrder(w: World, es: seq<Event>)
    requires BaseInv(w) && OrderInv(w) && HarmlessRun(w, es)
    requires AcksInOrder(w.commands, w.logs.acks) && OnTimeRun(w, es)
    ensures AcksInOrder(Run(w, es).commands, Run(w, es).logs.acks)
  {
    if es != [] {
      var n := |es| - 1;
      HarmlessFront(w, es);
      assert forall i :: 0 <= i < n ==> es[..n][..i] == es[..i];
      RunAcksInOrder(w, es[..n]);
      RunDelivers(w, es[..n]);
      StepAcksExactlyWhen(Run(w, es[..n]), es[n]);
    }
  }

  /** Acknowledgements follow delivery order, each place at most once, and none passes over one that waits. */
  lemma AcknowledgedInOrder(es: seq<Event>, i: nat, j: nat)
    requires HarmlessRun(FRESH, es) && OnTimeRun(FRESH, es) && i < |Run(FRESH, es).logs.acks|
    ensures
      var w := Run(FRESH, es);
      && w.logs.acks[i] < |w.commands|
      && (i < j < |w.logs.acks| ==> w.logs.acks[j] < |w.commands| && Before(w.commands, w.logs.acks[i], w.logs.acks[j]))
      && (Waits(w.commands, j) ==> Before(w.commands, w.logs.acks[i], j))
  {
    FreshOk();
    RunAcksInOrder(FRESH, es);
  }

  // ----- after a harmful step -----

  /** The daemon can come to item j, and y waits and is none of the rows it acknowledges on the way. */
  ghost predicate Reach(w: World, j: nat, y: nat) {
    && BaseInv(w) && w.pc.Working? && !w.pc.stage.ReservationLost? && w.pc.k <= j < |w.pc.items|
    && (forall a :: First(w.pc) <= a <= j ==> ItemWaits(w.commands, w.pc.items, a, y))
    && Waits(w.commands, y)
  }

  ghost predicate ItemWaits(cs: seq<Command>, items: seq<nat>, a: nat, y: nat)
    requires a < |items| && DistinctItems(cs, items)
  {
    Waits(cs, Row(cs, items[a])) && Row(cs, items[a]) != y
  }

  /** The reply or write that takes the current item forward. */
  function Forward(stage: Stage): Event {
    match stage
    case Start => HandlerSkips
    case Reserved(_, _) => RekeyReplied(RekeyOk)
    case Committed(_, _) => WriteCompletion
    case Handled => AckReplied(AckOk)
    case Acknowledged => WriteCursor
    case ReservationLost(_, _) => WriteGeneration
  }

  function Rank(stage: Stage): nat {
    match stage
    case Reserved(_, _) => 4
    case Handled => 2
    case Acknowledged => 1
    case _ => 3
  }

  /** Rows stay where they are, whatever their states. */
  ghost predicate SameRows(cs: seq<Command>, cs': seq<Command>) {
    && |cs'| == |cs| && (forall n :: 0 <= n < |cs| ==> cs'[n].id == cs[n].id && cs'[n].at == cs[n].at)
    && (forall n: nat :: n < |cs| ==> Row(cs', n) == Row(cs, n))
  }

  lemma ForwardStep(w: World, j: nat, y: nat)
    requires Reach(w, j, y) && !w.pc.stage.Acknowledged?
    ensures
      var w' := Next(w, Forward(w.pc.stage));
      && Reach(w', j, y) && w'.pc == w.pc.(stage := w'.pc.stage) && Rank(w'.pc.stage) < Rank(w.pc.stage)
      && SameRows(w.commands, w'.commands)
  {
    if w.pc.stage.Handled? {
      StepBase(w, AckReplied(AckOk));
      ForwardAck(w, j, y);
    } else {
      ForwardOther(w, j, y);
    }
  }

  lemma ForwardOther(w: World, j: nat, y: nat)
    requires Reach(w, j, y) && !w.pc.stage.Acknowledged? && !w.pc.stage.Handled?
    ensures
      var w' := Next(w, Forward(w.pc.stage));
      && Reach(w', j, y) && w'.pc == w.pc.(stage := w'.pc.stage) && Rank(w'.pc.stage) < Rank(w.pc.stage)
      && w'.commands == w.commands
  {
    StepBase(w, Forward(w.pc.stage));
    ForwardReply(w, Forward(w.pc.stage));
    StillReach(w, Next(w, Forward(w.pc.stage)), j, y);
  }

  /** Before the acknowledgement only the stage moves, and not the table. */
  lemma ForwardReply(w: World, e: Event)
    requires InRange(w) && w.pc.Working? && e == Forward(w.pc.stage)
    requires w.pc.stage.Start? || w.pc.stage.Reserved? || w.pc.stage.Committed?
    ensures
      var w' := Next(w, e);
      && w'.commands == w.commands && w'.pc == w.pc.(stage := if w.pc.stage.Reserved? then w'.pc.stage else Handled)
      && (w.pc.stage.Reserved? ==> w'.pc.stage.Committed?)
  {
  }

  lemma StillReach(w: World, w': World, j: nat, y: nat)
    requires Reach(w, j, y) && BaseInv(w') && w'.commands == w.commands && w'.pc.Working?
    requires w'.pc == w.pc.(stage := w'.pc.stage) && !w'.pc.stage.ReservationLost?
    requires !w.pc.stage.Acknowledged? && !w'.pc.stage.Acknowledged?
    ensures Reach(w', j, y)
  {
  }

  lemma ForwardAck(w: World, j: nat, y: nat)
    requires Reach(w, j, y) && w.pc.stage.Handled? && BaseInv(Next(w, AckReplied(AckOk)))
    ensures
      var w' := Next(w, AckReplied(AckOk));
      Reach(w', j, y) && w'.pc == w.pc.(stage := Acknowledged) && SameRows(w.commands, w'.commands)
  {
    var w', items, k := Next(w, AckReplied(AckOk)), w.pc.items, w.pc.k;
    var m := Row(w.commands, items[k]);
    assert ItemWaits(w.commands, items, k, y);
    CompletingRows(w.commands, m);
    assert w'.commands == Completing(w.commands, m) && w'.pc == w.pc.(stage := Acknowledged);
    forall a | k + 1 <= a <= j
      ensures ItemWaits(w'.commands, items, a, y)
    {
      assert ItemWaits(w.commands, items, a, y);
      OthersWait(w.commands, items, k, a, y);
    }
  }

  lemma OthersWait(cs: seq<Command>, items: seq<nat>, k: nat, a: nat, y: nat)
    requires PlacesOk(cs) && DistinctItems(cs, items) && k < a < |items|
    requires Waits(cs, Row(cs, items[k])) && ItemWaits(cs, items, a, y)
    ensures DistinctItems(Completing(cs, Row(cs, items[k])), items)
    ensures ItemWaits(Completing(cs, Row(cs, items[k])), items, a, y)
  {
    CompletingRows(cs, Row(cs, items[k]));
    assert cs[items[k]].id != cs[items[a]].id;
  }

  lemma ForwardCursor(w: World, j: nat, y: nat)
    requires Reach(w, j, y) && w.pc.stage.Acknowledged?
    ensures
      var w' := Next(w, WriteCursor);
      && w'.commands == w.commands && CURSOR in w'.journal
      && w'.journal[CURSOR] == Cursor(w.commands[w.pc.items[w.pc.k]].id)
      && (w.pc.k < j ==> Reach(w', j, y) && w'.pc == Working(w.pc.items, w.pc.k + 1, Start))
  {
    StepBase(w, WriteCursor);
  }

  lemma {:induction false} RunCons(w: World, e: Event, es: seq<Event>)
    ensures Run(w, [e] + es) == Run(Next(w, e), es)
  {
    if es == [] {
      assert ([e] + es)[..0] == [];
      assert [e] + es == [e];
    } else {
      var n := |es| - 1;
      RunCons(w, e, es[..n]);
      assert ([e] + es)[..|[e] + es| - 1] == [e] + es[..n];
    }
  }

  /** The cursor names the command at place n, all rows are where they were, and y still waits. */
  ghost predicate Arrived(cs: seq<Command>, n: nat, y: nat, w': World) {
    && n < |cs| && BaseInv(w') && SameRows(cs, w'.commands) && Waits(w'.commands, y)
    && CURSOR in w'.journal && w'.journal[CURSOR] == Cursor(cs[n].id)
  }

  lemma ArrivedFrom(cs: seq<Command>, cs1: seq<Command>, n: nat, y: nat, w': World)
    requires SameRows(cs, cs1) && Arrived(cs1, n, y, w')
    ensures Arrived(cs, n, y, w')
  {
  }

  lemma ArrivesNow(w: World, y: nat)
    requires w.pc.Working? && Reach(w, w.pc.k, y) && w.pc.stage.Acknowledged?
    ensures Arrived(w.commands, w.pc.items[w.pc.k], y, Next(w, WriteCursor))
  {
    StepBase(w, WriteCursor);
    ForwardCursor(w, w.pc.k, y);
  }

  /** No command is queued. */
  ghost predicate Quiet(es: seq<Event>) {
    forall n :: 0 <= n < |es| ==> !es[n].Enqueue? && !es[n].Requeue?
  }

  /** With nothing queued these events lead to a cursor on the command at place n, while y waits. */
  ghost predicate Leads(w: World, es: seq<Event>, n: nat, y: nat) {
    Quiet(es) && Arrived(w.commands, n, y, Run(w, es))
  }

  /** Item k is acknowledged and is the one to come to. */
  predicate AtLast(pc: Pc, j: nat) {
    pc.Working? && pc.k == j && pc.stage.Acknowledged?
  }

  /** Whatever leads there from w' leads there from w after e. */
  ghost predicate Precedes(w: World, e: Event, w': World, y: nat) {
    forall rest, n: nat :: Leads(w', rest, n, y) ==> Leads(w, [e] + rest, n, y)
  }

  lemma StepPrecedes(w: World, e: Event, y: nat)
    requires SameRows(w.commands, Next(w, e).commands) && !e.Enqueue? && !e.Requeue?
    ensures Precedes(w, e, Next(w, e), y)
  {
    forall rest, n: nat | Leads(Next(w, e), rest, n, y)
      ensures Leads(w, [e] + rest, n, y)
    {
      ArrivedFrom(w.commands, Next(w, e).commands, n, y, Run(Next(w, e), rest));
      RunCons(w, e, rest);
      QuietCons(e, rest);
    }
  }

  /** One step forward is closer to item j, over the same items. */
  lemma Approaches(w: World, j: nat, y: nat) returns (e: Event, w': World)
    requires Reach(w, j, y) && !AtLast(w.pc, j)
    ensures Precedes(w, e, w', y) && Reach(w', j, y) && w'.pc.items == w.pc.items
    ensures w'.pc.k > w.pc.k || (w'.pc.k == w.pc.k && Rank(w'.pc.stage) < Rank(w.pc.stage))
  {
    e := Forward(w.pc.stage);
    w' := Next(w, e);
    if w.pc.stage.Acknowledged? {
      ForwardCursor(w, j, y);
    } else {
      ForwardStep(w, j, y);
    }
    StepPrecedes(w, e, y);
  }

  lemma LastStep(w: World, j: nat, y: nat)
    requires Reach(w, j, y) && AtLast(w.pc, j)
    ensures Leads(w, [WriteCursor] + [], w.pc.items[j], y)
  {
    ArrivesNow(w, y);
    ForwardCursor(w, j, y);
    StepPrecedes(w, WriteCursor, y);
    assert Leads(Next(w, WriteCursor), [], w.pc.items[j], y);
  }

  /** The daemon goes forward until the cursor names item j; y waits all the while. */
  lemma {:induction false} Drives(w: World, j: nat, y: nat) returns (es: seq<Event>)
    requires Reach(w, j, y)
    ensures Leads(w, es, w.pc.items[j], y)
    decreases j - w.pc.k, Rank(w.pc.stage)
  {
    if AtLast(w.pc, j) {
      LastStep(w, j, y);
      es := [WriteCursor] + [];
    } else {
      var e, w' := Approaches(w, j, y);
      var rest := Drives(w', j, y);
      es := [e] + rest;
    }
  }

  lemma QuietCons(e: Event, es: seq<Event>)
    requires !e.Enqueue? && !e.Requeue? && Quiet(es)
    ensures Quiet([e] + es)
  {
  }

  lemma QuietIsHarmless(w: World, es: seq<Event>)
    requires Quiet(es)
    ensures HarmlessRun(w, es)
  {
  }

  /** A cursor on a row with something waiting before it breaks the guarantee. */
  lemma PassedOver(cs: seq<Command>, n: nat, y: nat, j: Journal)
    requires PlacesOk(cs) && n < |cs| && CURSOR in j && j[CURSOR] == Cursor(cs[n].id)
    requires Waits(cs, y) && Before(cs, y, Row(cs, n))
    ensures !CursorOk(cs, j)
  {
    if m: nat :| Names(cs, m, cs[n].id) && DoneUpTo(cs, m) {
      RowIs(cs, m);
    }
  }

  lemma OvertakenPassesOver(w: World, j: nat, y: nat) returns (es: seq<Event>)
    requires BaseInv(w) && Overtakes(w.commands, w.pc, j, y)
    ensures HarmlessRun(w, es)
    ensures var w' := Run(w, es); !CursorOk(w'.commands, w'.journal)
  {
    es := Drives(w, j, y);
    QuietIsHarmless(w, es);
    var w' := Run(w, es);
    PassedOver(w'.commands, w.pc.items[j], y, w'.journal);
  }

  /** The new row is before a completed one. */
  lemma AddedBefore(w: World, e: Event, n: nat)
    requires BaseInv(w) && Adds(w, e) && Named(w, n) && e.at < w.commands[n].at
    ensures
      var w', z := Next(w, e), |w.commands|;
      && BaseInv(w') && w'.journal == w.journal && w'.pc == w.pc && n < |w'.commands|
      && Waits(w'.commands, z) && Before(w'.commands, z, n) && Row(w'.commands, n) == n
  {
    AddBase(w, e);
    RowIs(Next(w, e).commands, n);
  }

  /** The row that the cursor names, or is about to name, has the new one before it. */
  lemma NamedPassesOver(w: World, e: Event, n: nat) returns (es: seq<Event>)
    requires BaseInv(w) && Adds(w, e) && Named(w, n) && e.at < w.commands[n].at
    ensures HarmlessRun(Next(w, e), es)
    ensures var w' := Run(Next(w, e), es); !CursorOk(w'.commands, w'.journal)
  {
    AddBase(w, e);
    AddedBefore(w, e, n);
    var w1, z := Next(w, e), |w.commands|;
    if CURSOR in w.journal && Names(w.commands, n, w.journal[CURSOR].command) {
      es := [];
      PassedOver(w1.commands, n, z, w1.journal);
    } else {
      es := [] + [WriteCursor];
      RunSnocFrom(w1, [], WriteCursor);
      QuietIsHarmless(w1, es);
      WritesPassed(w1, z);
    }
  }

  lemma WritesPassed(w: World, z: nat)
    requires BaseInv(w) && w.pc.Working? && w.pc.stage.Acknowledged?
    requires Waits(w.commands, z) && Before(w.commands, z, Row(w.commands, w.pc.items[w.pc.k]))
    ensures var w' := Next(w, WriteCursor); !CursorOk(w'.commands, w'.journal)
  {
    PassedOver(w.commands, w.pc.items[w.pc.k], z, Next(w, WriteCursor).journal);
  }

  lemma RunSnocFrom(w: World, es: seq<Event>, e: Event)
    ensures Run(w, es + [e]) == Next(Run(w, es), e)
  {
    assert (es + [e])[..|es|] == es;
  }

  /** After a harmful step the daemon can write a cursor that has a waiting command before it, or has one already. */
  lemma HarmfulPassesOver(w: World, e: Event) returns (es: seq<Event>)
    requires Harmful(w, e)
    ensures HarmlessRun(Next(w, e), es)
    ensures var w' := Run(Next(w, e), es); !CursorOk(w'.commands, w'.journal)
  {
    AddBase(w, e);
    if n: nat :| Named(w, n) && e.at < w.commands[n].at {
      es := NamedPassesOver(w, e, n);
    } else {
      var j: nat, y: nat :| Overtakes(Added(w, e), w.pc, j, y);
      es := OvertakenPassesOver(Next(w, e), j, y);
    }
  }

  /**
   A step leaves the cursor's guarantee safe in every later run without harmful steps, exactly when it is not
   harmful itself.
   */
  lemma CursorSafeExactlyWhen(w: World, e: Event)
    requires BaseInv(w) && OrderInv(w)
    ensures
      (forall es :: HarmlessRun(Next(w, e), es) ==>
        CursorOk(Run(Next(w, e), es).commands, Run(Next(w, e), es).journal)) <==> !Harmful(w, e)
  {
    var w' := Next(w, e);
    if Harmful(w, e) {
      var es := HarmfulPassesOver(w, e);
    } else {
      StepOrder(w, e);
      forall es | HarmlessRun(w', es)
        ensures CursorOk(Run(w', es).commands, Run(w', es).journal)
      {
        RunDelivers(w', es);
      }
    }
  }

  // ----- which steps are harmful -----

  /** Row n is one the cursor names, or one the daemon can come to as things stand. */
  ghost predicate Coming(w: World, n: nat)
    requires BaseInv(w)
  {
    Named(w, n) || exists j: nat :: ComesTo(w.commands, w.pc, j) && n == Row(w.commands, w.pc.items[j])
  }

  lemma EnqueueComes(cs: seq<Command>, id: Id, at: int, pc: Pc, j: nat)
    requires PlacesOk(cs) && !KnownId(cs, id) && pc.Working? && DistinctItems(cs, pc.items) && j < |pc.items|
    ensures
      var cs' := cs + [Command(id, Pending, at)];
      && (ComesTo(cs', pc, j) <==> ComesTo(cs, pc, j))
      && DistinctItems(cs', pc.items) && Row(cs', pc.items[j]) == Row(cs, pc.items[j])
  {
    var cs' := cs + [Command(id, Pending, at)];
    EnqueuePlaces(cs, id, at);
    forall a | 0 <= a < |pc.items|
      ensures Row(cs', pc.items[a]) == Row(cs, pc.items[a])
      ensures Waits(cs', Row(cs', pc.items[a])) <==> Waits(cs, Row(cs, pc.items[a]))
    {
    }
  }

  /** Items in turn have only the new row to fear. */
  lemma EnqueueOvertakes(cs: seq<Command>, id: Id, at: int, pc: Pc, j: nat, y: nat)
    requires PlacesOk(cs) && !KnownId(cs, id) && pc.Working? && DistinctItems(cs, pc.items) && TurnOk(cs, pc)
    requires Overtakes(cs + [Command(id, Pending, at)], pc, j, y)
    ensures ComesTo(cs, pc, j) && at < cs[Row(cs, pc.items[j])].at
  {
    EnqueueComes(cs, id, at, pc, j);
    InTurnNotOvertaken(cs, pc, j, y);
    if y < |cs| {
      forall a | First(pc) <= a < j
        ensures Row(cs, pc.items[a]) != y
      {
        EnqueueComes(cs, id, at, pc, a);
      }
    }
  }

  lemma EnqueueIsOvertaking(cs: seq<Command>, id: Id, at: int, pc: Pc, j: nat)
    requires PlacesOk(cs) && !KnownId(cs, id) && ComesTo(cs, pc, j) && at < cs[Row(cs, pc.items[j])].at
    ensures Overtakes(cs + [Command(id, Pending, at)], pc, j, |cs|)
  {
    EnqueueComes(cs, id, at, pc, j);
    forall a | First(pc) <= a < j
      ensures Row(cs + [Command(id, Pending, at)], pc.items[a]) != |cs|
    {
      EnqueueComes(cs, id, at, pc, a);
    }
  }

  lemma ComingIs(w: World, j: nat)
    requires BaseInv(w) && ComesTo(w.commands, w.pc, j)
    ensures Coming(w, Row(w.commands, w.pc.items[j]))
  {
  }

  lemma ComingItem(w: World, n: nat) returns (j: nat)
    requires BaseInv(w) && Coming(w, n) && !Named(w, n)
    ensures ComesTo(w.commands, w.pc, j) && n == Row(w.commands, w.pc.items[j])
  {
    j :| ComesTo(w.commands, w.pc, j) && n == Row(w.commands, w.pc.items[j]);
  }

  lemma OvertakingIsLate(w: World, id: Id, at: int, j: nat, y: nat) returns (n: nat)
    requires BaseInv(w) && OrderInv(w) && Adds(w, Enqueue(id, at)) && Overtakes(Added(w, Enqueue(id, at)), w.pc, j, y)
    ensures Coming(w, n) && at < w.commands[n].at
  {
    EnqueueOvertakes(w.commands, id, at, w.pc, j, y);
    ComingIs(w, j);
    n := Row(w.commands, w.pc.items[j]);
  }

  lemma LateIsHarmful(w: World, id: Id, at: int, n: nat)
    requires BaseInv(w) && Adds(w, Enqueue(id, at)) && Coming(w, n) && at < w.commands[n].at
    ensures Harmful(w, Enqueue(id, at))
  {
    if !Named(w, n) {
      var j := ComingItem(w, n);
      EnqueueIsOvertaking(w.commands, id, at, w.pc, j);
      assert Overtakes(Added(w, Enqueue(id, at)), w.pc, j, |w.commands|);
    }
  }

  /** A new command is harmful exactly when its stamp is behind that of a row the daemon has come to or comes to. */
  lemma EnqueueHarmfulExactlyWhen(w: World, id: Id, at: int)
    requires BaseInv(w) && OrderInv(w) && Adds(w, Enqueue(id, at))
    ensures Harmful(w, Enqueue(id, at)) <==> exists n: nat :: Coming(w, n) && at < w.commands[n].at
  {
    if Harmful(w, Enqueue(id, at)) {
      if n: nat :| Named(w, n) && at < w.commands[n].at {
        assert Coming(w, n);
      } else {
        var j: nat, y: nat :| Overtakes(Added(w, Enqueue(id, at)), w.pc, j, y);
        var n := OvertakingIsLate(w, id, at, j, y);
      }
    }
    if n: nat :| Coming(w, n) && at < w.commands[n].at {
      LateIsHarmful(w, id, at, n);
    }
  }

  /** No stamp is ahead of this one. */
  ghost predicate OnTime(cs: seq<Command>, at: int) {
    forall n :: 0 <= n < |cs| ==> cs[n].at <= at
  }

  /** A new command queued on time is never harmful. */
  lemma OnTimeEnqueueIsHarmless(w: World, id: Id, at: int)
    requires BaseInv(w) && OrderInv(w) && OnTime(w.commands, at)
    ensures !Harmful(w, Enqueue(id, at))
  {
    if Adds(w, Enqueue(id, at)) {
      EnqueueHarmfulExactlyWhen(w, id, at);
      forall n: nat | Coming(w, n)
        ensures at >= w.commands[n].at
      {
        if !Named(w, n) {
          var j := ComingItem(w, n);
        }
      }
    }
  }

  /** Item j is the command at place i, and the daemon can still come to it. */
  ghost predicate Ahead(cs: seq<Command>, pc: Pc, i: nat, j: nat) {
    && pc.Working? && !pc.stage.ReservationLost? && First(pc) <= j < |pc.items| && DistinctItems(cs, pc.items)
    && i < |cs| && cs[pc.items[j]].id == cs[i].id
    && forall a :: First(pc) <= a < j ==> Waits(cs, Row(cs, pc.items[a]))
  }

  /** And y waits, which the daemon will not have acknowledged before item j. */
  ghost predicate OtherWaits(cs: seq<Command>, pc: Pc, i: nat, j: nat, y: nat) {
    Ahead(cs, pc, i, j) && Waits(cs, y) && forall a :: First(pc) <= a < j ==> Row(cs, pc.items[a]) != y
  }

  /**
   A command queued again on time is harmful exactly when the daemon still has it ahead of it and something else
   waits.
   */
  lemma RequeueHarmfulExactlyWhen(w: World, i: nat, at: int)
    requires BaseInv(w) && OrderInv(w) && Adds(w, Requeue(i, at)) && OnTime(w.commands, at)
    ensures Harmful(w, Requeue(i, at)) <==> exists j: nat, y: nat :: OtherWaits(w.commands, w.pc, i, j, y)
  {
    if Harmful(w, Requeue(i, at)) {
      var j: nat, y: nat :| Overtakes(Added(w, Requeue(i, at)), w.pc, j, y);
      var m := RequeueOvertakes(w.commands, i, at, w.pc, j, y);
    }
    if j: nat, y: nat :| OtherWaits(w.commands, w.pc, i, j, y) {
      RequeueIsOvertaking(w.commands, i, at, w.pc, j, y);
      assert Overtakes(Added(w, Requeue(i, at)), w.pc, j, y);
    }
  }

  /** Only the rows of the requeued command move. */
  lemma OtherRow(cs: seq<Command>, i: nat, at: int, n: nat)
    requires PlacesOk(cs) && i < |cs| && cs[i].status.Expired? && n < |cs| && cs[n].id != cs[i].id
    ensures
      var cs' := Requeued(cs, i, at);
      Row(cs', n) == Row(cs, n) && (Waits(cs', Row(cs, n)) <==> Waits(cs, Row(cs, n)))
  {
    RequeueRows(cs, i, at, n);
  }

  lemma RequeueOvertakes(cs: seq<Command>, i: nat, at: int, pc: Pc, j: nat, y: nat) returns (m: nat)
    requires PlacesOk(cs) && i < |cs| && cs[i].status.Expired? && OnTime(cs, at)
    requires pc.Working? && DistinctItems(cs, pc.items) && TurnOk(cs, pc) && Overtakes(Requeued(cs, i, at), pc, j, y)
    ensures OtherWaits(cs, pc, i, m, y)
  {
    if b :| First(pc) <= b <= j && cs[pc.items[b]].id == cs[i].id {
      m := b;
      forall a | First(pc) <= a < m
        ensures Waits(cs, Row(cs, pc.items[a])) && Row(cs, pc.items[a]) != y
      {
        assert cs[pc.items[a]].id != cs[pc.items[m]].id;
        OtherRow(cs, i, at, pc.items[a]);
      }
    } else {
      OvertakenBefore(cs, i, at, pc, j, y);
      InTurnNotOvertaken(cs, pc, j, y);
      assert false;
    }
  }

  /** Without the requeued command among them, the items were overtaken before. */
  lemma OvertakenBefore(cs: seq<Command>, i: nat, at: int, pc: Pc, j: nat, y: nat)
    requires PlacesOk(cs) && i < |cs| && cs[i].status.Expired? && OnTime(cs, at)
    requires pc.Working? && DistinctItems(cs, pc.items) && Overtakes(Requeued(cs, i, at), pc, j, y)
    requires forall b :: First(pc) <= b <= j ==> cs[pc.items[b]].id != cs[i].id
    ensures Overtakes(cs, pc, j, y)
  {
    forall a | First(pc) <= a <= j
      ensures Row(Requeued(cs, i, at), pc.items[a]) == Row(cs, pc.items[a]) && Waits(cs, Row(cs, pc.items[a]))
    {
      OtherRow(cs, i, at, pc.items[a]);
    }
  }

  lemma RequeueIsOvertaking(cs: seq<Command>, i: nat, at: int, pc: Pc, j: nat, y: nat)
    requires PlacesOk(cs) && i < |cs| && cs[i].status.Expired? && OnTime(cs, at) && OtherWaits(cs, pc, i, j, y)
    ensures Overtakes(Requeued(cs, i, at), pc, j, y)
  {
    RequeueRows(cs, i, at, pc.items[j]);
    forall a | First(pc) <= a < j
      ensures Row(Requeued(cs, i, at), pc.items[a]) == Row(cs, pc.items[a])
      ensures Waits(Requeued(cs, i, at), Row(cs, pc.items[a]))
    {
      assert cs[pc.items[a]].id != cs[pc.items[j]].id;
      OtherRow(cs, i, at, pc.items[a]);
    }
  }

  // ----- three runs -----

  /** A world at rest or at work, with nothing reserved. */
  function Bare(cs: seq<Command>, journal: Journal, pc: Pc, acks: seq<nat>): World {
    World(cs, map[], journal, pc, Logs([], [], [], acks))
  }

  lemma TwoQueued(a: Id, b: Id)
    requires a != "" && b != "" && a != b
    ensures Run(FRESH, [] + [Enqueue(a, 1)] + [Enqueue(b, 2)])
         == Bare([Command(a, Pending, 1), Command(b, Pending, 2)], map[], Idle, [])
  {
    RunSnoc([], Enqueue(a, 1));
    RunSnoc([] + [Enqueue(a, 1)], Enqueue(b, 2));
    var w := Run(FRESH, [] + [Enqueue(a, 1)]);
    assert w.commands == [Command(a, Pending, 1)];
    assert !KnownId(w.commands, b);
    assert w.commands + [Command(b, Pending, 2)] == [Command(a, Pending, 1), Command(b, Pending, 2)];
  }

  /** One item is skipped by the handler, acknowledged and written as the cursor. */
  lemma OneItem(cs: seq<Command>, items: seq<nat>, m: nat)
    requires items != [] && items[0] < |cs| && m == Row(cs, items[0]) && cs[m].status.Pending?
    ensures
      var w := Bare(cs, map[], Working(items, 0, Start), []);
      var w' := Next(Next(Next(w, HandlerSkips), AckReplied(AckOk)), WriteCursor);
      w'.commands == Completing(cs, m) && w'.journal == map[CURSOR := Cursor(cs[items[0]].id)] && w'.logs.acks == [m]
  {
    var w := Bare(cs, map[], Working(items, 0, Start), []);
    var w1 := Next(w, HandlerSkips);
    assert w1 == Bare(cs, map[], Working(items, 0, Handled), []);
    var w2 := Next(w1, AckReplied(AckOk));
    assert w2 == Bare(Completing(cs, m), map[], Working(items, 0, Acknowledged), [] + [m]);
  }

  function Handling(es: seq<Event>): seq<Event> {
    es + [HandlerSkips] + [AckReplied(AckOk)] + [WriteCursor]
  }

  lemma {:induction false} RunHandling(es: seq<Event>)
    ensures Run(FRESH, Handling(es)) == Next(Next(Next(Run(FRESH, es), HandlerSkips), AckReplied(AckOk)), WriteCursor)
  {
    RunSnoc(es, HandlerSkips);
    RunSnoc(es + [HandlerSkips], AckReplied(AckOk));
    RunSnoc(es + [HandlerSkips] + [AckReplied(AckOk)], WriteCursor);
  }

  lemma TwoPendings(a: Command, b: Command)
    requires b.status.Pending? && a.at <= b.at
    ensures Pendings([a, b]) == if a.status.Pending? then [0, 1] else [1]
  {
    assert [a, b][..1] == [a] && [a][..0] == [];
    assert Pendings([a]) == if a.status.Pending? then [0] else [];
  }

  function ExpiredFirst(a: Id, b: Id): seq<Event> {
    [] + [Enqueue(a, 1)] + [Enqueue(b, 2)] + [Expire(0)] + [Poll(100)]
  }

  lemma ExpiredWorld(a: Id, b: Id)
    requires a != "" && b != "" && a != b
    ensures
      var cs := [Command(a, Expired, 1), Command(b, Pending, 2)];
      Run(FRESH, [] + [Enqueue(a, 1)] + [Enqueue(b, 2)] + [Expire(0)]) == Bare(cs, map[], Idle, [])
  {
    TwoQueued(a, b);
    RunSnoc([] + [Enqueue(a, 1)] + [Enqueue(b, 2)], Expire(0));
  }

  lemma PolledWorld(cs: seq<Command>, items: seq<nat>)
    requires Pendings(cs) == items && 0 < |items| <= 100
    ensures Next(Bare(cs, map[], Idle, []), Poll(100)) == Bare(cs, map[], Working(items, 0, Start), [])
  {
  }

  /** The cursor passes a command that expired: a was never acknowledged, and the cursor names b, behind it. */
  lemma CursorPassesExpired(a: Id, b: Id)
    requires a != "" && b != "" && a != b
    ensures
      var w := Run(FRESH, Handling(ExpiredFirst(a, b)));
      && w.commands == [Command(a, Expired, 1), Command(b, Completed, 2)] && w.logs.acks == [1]
      && w.journal == map[CURSOR := Cursor(b)]
  {
    var cs := [Command(a, Expired, 1), Command(b, Pending, 2)];
    ExpiredWorld(a, b);
    RunSnoc([] + [Enqueue(a, 1)] + [Enqueue(b, 2)] + [Expire(0)], Poll(100));
    TwoPendings(cs[0], cs[1]);
    PolledWorld(cs, [1]);
    RunHandling(ExpiredFirst(a, b));
    OneItem(cs, [1], 1);
  }

  function RequeuedFirst(a: Id, b: Id): seq<Event> {
    [] + [Enqueue(a, 1)] + [Enqueue(b, 2)] + [Poll(100)] + [Expire(0)] + [Requeue(0, 3)]
  }

  lemma ExpiresAndReturns(a: Id, b: Id, pc: Pc)
    ensures
      var cs := [Command(a, Pending, 1), Command(b, Pending, 2)];
      var cs' := [Command(a, Moved, 1), Command(b, Pending, 2), Command(a, Pending, 3)];
      Next(Next(Bare(cs, map[], pc, []), Expire(0)), Requeue(0, 3)) == Bare(cs', map[], pc, [])
  {
    var cs := [Command(a, Expired, 1), Command(b, Pending, 2)];
    assert Requeued(cs, 0, 3) == [Command(a, Moved, 1), Command(b, Pending, 2), Command(a, Pending, 3)];
  }

  lemma RequeuedWorld(a: Id, b: Id)
    requires a != "" && b != "" && a != b
    ensures
      var cs := [Command(a, Moved, 1), Command(b, Pending, 2), Command(a, Pending, 3)];
      Run(FRESH, RequeuedFirst(a, b)) == Bare(cs, map[], Working([0, 1], 0, Start), [])
  {
    var es := [] + [Enqueue(a, 1)] + [Enqueue(b, 2)];
    TwoQueued(a, b);
    RunSnoc(es, Poll(100));
    TwoPendings(Command(a, Pending, 1), Command(b, Pending, 2));
    PolledWorld([Command(a, Pending, 1), Command(b, Pending, 2)], [0, 1]);
    RunSnoc(es + [Poll(100)], Expire(0));
    RunSnoc(es + [Poll(100)] + [Expire(0)], Requeue(0, 3));
    ExpiresAndReturns(a, b, Working([0, 1], 0, Start));
  }

  /** a is queued again while it is being handled, and the cursor names it while b, before it, waits. */
  lemma CursorPassesWaiting(a: Id, b: Id)
    requires a != "" && b != "" && a != b
    ensures
      var w := Run(FRESH, Handling(RequeuedFirst(a, b)));
      && w.commands == [Command(a, Moved, 1), Command(b, Pending, 2), Command(a, Completed, 3)] && w.logs.acks == [2]
      && w.journal == map[CURSOR := Cursor(a)]
  {
    RequeuedWorld(a, b);
    RunHandling(RequeuedFirst(a, b));
    OneItem([Command(a, Moved, 1), Command(b, Pending, 2), Command(a, Pending, 3)], [0, 1], 2);
  }

  /** A clock set back queues b before a, which the cursor names already. */
  lemma CursorPassesLate(a: Id, b: Id)
    requires a != "" && b != "" && a != b
    ensures
      var w := Run(FRESH, Handling([] + [Enqueue(a, 2)] + [Poll(100)]) + [Enqueue(b, 1)]);
      && w.commands == [Command(a, Completed, 2), Command(b, Pending, 1)] && Before(w.commands, 1, 0)
      && w.journal == map[CURSOR := Cursor(a)]
  {
    var es, cs := [] + [Enqueue(a, 2)] + [Poll(100)], [Command(a, Pending, 2)];
    RunSnoc([], Enqueue(a, 2));
    RunSnoc([] + [Enqueue(a, 2)], Poll(100));
    assert cs[..0] == [] && Pendings(cs) == [0];
    assert Run(FRESH, es) == Bare(cs, map[], Working([0], 0, Start), []);
    RunHandling(es);
    OneItem(cs, [0], 0);
    RunSnoc(Handling(es), Enqueue(b, 1));
    assert !KnownId(Completing(cs, 0), b);
  }
}
