/**
 Processes that pin at the same time (WorkspaceAuthorityStore in src/vgen/cli/workspace_authorities.py): a pin is
 a read of the keyring and a later write, with nothing to keep another process from writing in between.
 */
module AuthorityRaces {
  import opened Common
  import opened Authorities

  /** What a process does next in its call. */
  datatype Pc =
    | Idle
    | WritesUser(claim: Claim)
    | WritesOwner(claim: Claim)
    | OwnerWritten(claim: Claim)

  datatype World = World(keyring: Keyring, pcs: map<nat, Pc>)

  /** A call up to its read, the next step of a call, and the death of a process. */
  datatype Step =
    | BeginPin(pid: nat, claim: Claim)
    | BeginPinOwner(pid: nat, claim: Claim)
    | Go(pid: nat)
    | Die(pid: nat)

  function PcOf(w: World, p: nat): Pc {
    if p in w.pcs then w.pcs[p] else Idle
  }

  function WithPc(w: World, p: nat, pc: Pc): World {
    w.(pcs := w.pcs[p := pc])
  }

  /** pin up to its read: it goes on to write only when nothing is pinned. */
  function ReadUser(c: Crypto, k: Keyring, a: Claim): Pc {
    if KeyAccepted(c, a) && Load(c, k, a.workspace, a.user) == Ok(None) then WritesUser(a) else Idle
  }

  function ReadOwner(c: Crypto, k: Keyring, a: Claim): Pc {
    if KeyAccepted(c, a) && LoadOwner(c, k, a.workspace) == Ok(None) then WritesOwner(a) else Idle
  }

  function WriteUser(c: Crypto, k: Keyring, a: Claim): Keyring {
    k.(users := k.users[Account(a.workspace, a.user) := Text(PinOf(c, a))])
  }

  function Advance(c: Crypto, w: World, p: nat): World {
    match PcOf(w, p)
    case Idle => w
    case WritesUser(a) => World(WriteUser(c, w.keyring, a), w.pcs[p := Idle])
    case WritesOwner(a) => World(WriteOwner(c, w.keyring, a), w.pcs[p := OwnerWritten(a)])
    case OwnerWritten(a) => WithPc(w, p, ReadUser(c, w.keyring, a.(keyId := Some(c.keyId(a.key)))))
  }

  function NextWorld(c: Crypto, w: World, e: Step): World {
    match e
    case BeginPin(p, a) => if PcOf(w, p).Idle? then WithPc(w, p, ReadUser(c, w.keyring, a)) else w
    case BeginPinOwner(p, a) => if PcOf(w, p).Idle? then WithPc(w, p, ReadOwner(c, w.keyring, a)) else w
    case Go(p) => Advance(c, w, p)
    case Die(p) => WithPc(w, p, Idle)
  }

  function RunWorld(c: Crypto, w: World, es: seq<Step>): World {
    if es == [] then w else NextWorld(c, RunWorld(c, w, es[..|es| - 1]), es[|es| - 1])
  }

  lemma RunSnocWorld(c: Crypto, w: World, es: seq<Step>, e: Step)
    ensures RunWorld(c, w, es + [e]) == NextWorld(c, RunWorld(c, w, es), e)
  {
    assert (es + [e])[..|es|] == es;
  }

  // ----- calls that nobody interrupts -----

  /** A pin whose two steps follow each other is the call as a whole. */
  lemma UninterruptedPin(c: Crypto, w: World, p: nat, a: Claim)
    requires PcOf(w, p).Idle?
    ensures RunWorld(c, w, [] + [BeginPin(p, a)] + [Go(p)]).keyring == PinUser(c, w.keyring, a).0
  {
    RunSnocWorld(c, w, [], BeginPin(p, a));
    RunSnocWorld(c, w, [] + [BeginPin(p, a)], Go(p));
  }

  function OwnerRun(p: nat, a: Claim): seq<Step> {
    [] + [BeginPinOwner(p, a)] + [Go(p)]
  }

  /** And so is a pin_owner, whole or ended by a death after its first write. */
  lemma UninterruptedPinOwner(c: Crypto, w: World, p: nat, a: Claim)
    requires PcOf(w, p).Idle?
    ensures RunWorld(c, w, OwnerRun(p, a) + [Go(p)] + [Go(p)]).keyring == PinOwner(c, w.keyring, a).0
    ensures RunWorld(c, w, OwnerRun(p, a) + [Die(p)]).keyring == Next(c, w.keyring, DieInPinOwner(a))
  {
    RunSnocWorld(c, w, [], BeginPinOwner(p, a));
    RunSnocWorld(c, w, [] + [BeginPinOwner(p, a)], Go(p));
    RunSnocWorld(c, w, OwnerRun(p, a), Die(p));
    RunSnocWorld(c, w, OwnerRun(p, a), Go(p));
    RunSnocWorld(c, w, OwnerRun(p, a) + [Go(p)], Go(p));
  }

  // ----- when two processes are at the same entry -----

  datatype Entry = User(account: string) | Owner(workspace: string)

  function Lookup(k: Keyring, x: Entry): Option<Stored> {
    match x
    case User(a) => if a in k.users then Some(k.users[a]) else None
    case Owner(a) => if a in k.owners then Some(k.owners[a]) else None
  }

  /** The entry a process is about to write. */
  function EntryOf(pc: Pc): Option<Entry> {
    match pc
    case WritesUser(a) => Some(User(Account(a.workspace, a.user)))
    case WritesOwner(a) => Some(Owner(a.workspace))
    case _ => None
  }

  /** The two write different pins to one entry. */
  predicate Clash(c: Crypto, pc: Pc, pc': Pc) {
    && EntryOf(pc).Some? && EntryOf(pc) == EntryOf(pc') && PinOf(c, pc.claim) != PinOf(c, pc'.claim)
  }

  /** The entry already holds another value. */
  predicate Replaces(c: Crypto, k: Keyring, pc: Pc) {
    && EntryOf(pc).Some? && Lookup(k, EntryOf(pc).value).Some?
    && Lookup(k, EntryOf(pc).value) != Some(Text(PinOf(c, pc.claim)))
  }

  /** No write that is on its way replaces anything, now or after another one. */
  ghost predicate Clean(c: Crypto, w: World) {
    && (forall p :: p in w.pcs ==> !Replaces(c, w.keyring, w.pcs[p]))
    && (forall p, q :: p in w.pcs && q in w.pcs && p != q ==> !Clash(c, w.pcs[p], w.pcs[q]))
  }

  /** The step is a read. */
  predicate Reads(w: World, e: Step) {
    match e
    case BeginPin(p, _) => PcOf(w, p).Idle?
    case BeginPinOwner(p, _) => PcOf(w, p).Idle?
    case Go(p) => PcOf(w, p).OwnerWritten?
    case Die(_) => false
  }

  /** The read finds nothing while another process is about to write something else there. */
  ghost predicate Overlaps(c: Crypto, w: World, e: Step) {
    Reads(w, e) && exists q :: q in w.pcs && q != e.pid && Clash(c, PcOf(NextWorld(c, w, e), e.pid), w.pcs[q])
  }

  lemma ReadFindsNothing(c: Crypto, w: World, e: Step)
    requires Reads(w, e)
    ensures NextWorld(c, w, e).keyring == w.keyring && !Replaces(c, w.keyring, PcOf(NextWorld(c, w, e), e.pid))
    ensures forall q :: q in w.pcs && q != e.pid ==> PcOf(NextWorld(c, w, e), q) == w.pcs[q]
  {
  }

  lemma WriteIs(c: Crypto, w: World, p: nat)
    requires EntryOf(PcOf(w, p)).Some?
    ensures
      var w', x := NextWorld(c, w, Go(p)), EntryOf(PcOf(w, p)).value;
      && Lookup(w'.keyring, x) == Some(Text(PinOf(c, PcOf(w, p).claim))) && EntryOf(PcOf(w', p)).None?
      && (forall y :: y != x ==> Lookup(w'.keyring, y) == Lookup(w.keyring, y))
      && (forall q :: q != p ==> PcOf(w', q) == PcOf(w, q)) && w'.pcs.Keys == w.pcs.Keys
  {
  }

  lemma WriteKeepsClean(c: Crypto, w: World, p: nat)
    requires Clean(c, w) && EntryOf(PcOf(w, p)).Some?
    ensures Clean(c, NextWorld(c, w, Go(p))) && Extends(w.keyring, NextWorld(c, w, Go(p)).keyring)
  {
    WriteIs(c, w, p);
    var w', x := NextWorld(c, w, Go(p)), EntryOf(PcOf(w, p)).value;
    forall q | q in w'.pcs
      ensures !Replaces(c, w'.keyring, w'.pcs[q])
    {
      assert PcOf(w', q) == w'.pcs[q];
      if q != p {
        assert !Clash(c, w.pcs[p], w.pcs[q]) && !Replaces(c, w.keyring, w.pcs[q]);
      }
    }
    forall q, s | q in w'.pcs && s in w'.pcs && q != s
      ensures !Clash(c, w'.pcs[q], w'.pcs[s])
    {
      assert PcOf(w', q) == w'.pcs[q] && PcOf(w', s) == w'.pcs[s];
      if q != p && s != p {
        assert !Clash(c, w.pcs[q], w.pcs[s]);
      }
    }
    ExtendsByWrite(w.keyring, w'.keyring, x);
  }

  lemma ExtendsByWrite(k: Keyring, k': Keyring, x: Entry)
    requires forall y :: y != x ==> Lookup(k', y) == Lookup(k, y)
    requires Lookup(k, x).None? || Lookup(k', x) == Lookup(k, x)
    ensures Extends(k, k')
  {
    forall a | a in k.users
      ensures a in k'.users && k'.users[a] == k.users[a]
    {
      assert Lookup(k', User(a)) == Lookup(k, User(a));
    }
    forall a | a in k.owners
      ensures a in k'.owners && k'.owners[a] == k.owners[a]
    {
      assert Lookup(k', Owner(a)) == Lookup(k, Owner(a));
    }
  }

  lemma ReadCleanExactlyWhen(c: Crypto, w: World, e: Step)
    requires Clean(c, w) && Reads(w, e)
    ensures Clean(c, NextWorld(c, w, e)) <==> !Overlaps(c, w, e)
  {
    ReadFindsNothing(c, w, e);
    var w' := NextWorld(c, w, e);
    assert w'.pcs.Keys == w.pcs.Keys + {e.pid};
    if !Overlaps(c, w, e) {
      forall q, s | q in w'.pcs && s in w'.pcs && q != s
        ensures !Clash(c, w'.pcs[q], w'.pcs[s])
      {
        if q != e.pid && s != e.pid {
          assert !Clash(c, w.pcs[q], w.pcs[s]);
        }
      }
    } else {
      var q :| q in w.pcs && q != e.pid && Clash(c, PcOf(w', e.pid), w.pcs[q]);
      assert Clash(c, w'.pcs[e.pid], w'.pcs[q]);
    }
  }

  /** From a clean world, a step keeps every write safe exactly when it is not an overlapping read. */
  lemma NextCleanExactlyWhen(c: Crypto, w: World, e: Step)
    requires Clean(c, w)
    ensures Clean(c, NextWorld(c, w, e)) <==> !Overlaps(c, w, e)
    ensures Extends(w.keyring, NextWorld(c, w, e).keyring)
  {
    if Reads(w, e) {
      ReadCleanExactlyWhen(c, w, e);
    } else if e.Go? && EntryOf(PcOf(w, e.pid)).Some? {
      WriteKeepsClean(c, w, e.pid);
    } else if e.Die? {
      DeathKeepsClean(c, w, e.pid);
    }
  }

  lemma DeathKeepsClean(c: Crypto, w: World, p: nat)
    requires Clean(c, w)
    ensures Clean(c, NextWorld(c, w, Die(p)))
  {
    var w' := NextWorld(c, w, Die(p));
    forall q, s | q in w'.pcs && s in w'.pcs && q != s
      ensures !Clash(c, w'.pcs[q], w'.pcs[s])
    {
      if q != p && s != p {
        assert !Clash(c, w.pcs[q], w.pcs[s]);
      }
    }
  }

  // ----- every run -----

  ghost predicate NoOverlap(c: Crypto, w: World, es: seq<Step>) {
    forall n :: 0 <= n < |es| ==> !Overlaps(c, RunWorld(c, w, es[..n]), es[n])
  }

  lemma {:induction false} RunClean(c: Crypto, w: World, es: seq<Step>)
    requires Clean(c, w) && NoOverlap(c, w, es)
    ensures Clean(c, RunWorld(c, w, es))
  {
    if es != [] {
      var n := |es| - 1;
      assert forall i :: 0 <= i < n ==> es[..n][..i] == es[..i];
      RunClean(c, w, es[..n]);
      NextCleanExactlyWhen(c, RunWorld(c, w, es[..n]), es[n]);
    }
  }

  /** At no later point of the run is an entry of an earlier point replaced or gone. */
  ghost predicate WriteOnceAlong(c: Crypto, w: World, es: seq<Step>) {
    forall n, m :: 0 <= n <= m <= |es| ==> Extends(RunWorld(c, w, es[..n]).keyring, RunWorld(c, w, es[..m]).keyring)
  }

  lemma {:induction false} ExtendsThrough(ks: seq<Keyring>, n: nat, m: nat)
    requires n <= m < |ks| && forall i: nat :: i + 1 < |ks| ==> Extends(ks[i], ks[i + 1])
    ensures Extends(ks[n], ks[m])
    decreases m
  {
    if n < m {
      ExtendsThrough(ks, n, m - 1);
      assert Extends(ks[m - 1], ks[m - 1 + 1]);
    }
  }

  lemma CleanAlong(c: Crypto, w: World, es: seq<Step>, n: nat)
    requires Clean(c, w) && NoOverlap(c, w, es) && n <= |es|
    ensures Clean(c, RunWorld(c, w, es[..n]))
  {
    assert forall i :: 0 <= i < n ==> es[..n][..i] == es[..i];
    RunClean(c, w, es[..n]);
  }

  lemma StepAlong(c: Crypto, w: World, es: seq<Step>, n: nat)
    requires Clean(c, w) && NoOverlap(c, w, es) && n < |es|
    ensures Extends(RunWorld(c, w, es[..n]).keyring, RunWorld(c, w, es[..n + 1]).keyring)
  {
    CleanAlong(c, w, es, n);
    NextCleanExactlyWhen(c, RunWorld(c, w, es[..n]), es[n]);
    assert es[..n + 1] == es[..n] + [es[n]];
    RunSnocWorld(c, w, es[..n], es[n]);
  }

  /** Without overlapping reads every run of any number of processes is write-once. */
  lemma SerialRunsWriteOnce(c: Crypto, w: World, es: seq<Step>)
    requires Clean(c, w) && NoOverlap(c, w, es)
    ensures WriteOnceAlong(c, w, es)
  {
    var ks := seq(|es| + 1, n requires 0 <= n <= |es| => RunWorld(c, w, es[..n]).keyring);
    forall i: nat | i + 1 < |ks|
      ensures Extends(ks[i], ks[i + 1])
    {
      StepAlong(c, w, es, i);
    }
    forall n, m | 0 <= n <= m <= |es|
      ensures Extends(RunWorld(c, w, es[..n]).keyring, RunWorld(c, w, es[..m]).keyring)
    {
      ExtendsThrough(ks, n, m);
    }
  }

  lemma ReplacingBreaks(c: Crypto, w: World, p: nat)
    requires Replaces(c, w.keyring, PcOf(w, p))
    ensures !Extends(w.keyring, NextWorld(c, w, Go(p)).keyring)
  {
    WriteIs(c, w, p);
    var x := EntryOf(PcOf(w, p)).value;
    assert Lookup(w.keyring, x) != Lookup(NextWorld(c, w, Go(p)).keyring, x);
  }

  lemma BreaksAt(c: Crypto, w: World, es: seq<Step>, p: nat)
    requires Replaces(c, RunWorld(c, w, es).keyring, PcOf(RunWorld(c, w, es), p))
    ensures !WriteOnceAlong(c, w, es + [Go(p)])
  {
    var all := es + [Go(p)];
    RunSnocWorld(c, w, es, Go(p));
    ReplacingBreaks(c, RunWorld(c, w, es), p);
    assert all[..|es|] == es && all[..|es| + 1] == all;
  }

  /** Of two clashing writes the second replaces the first. */
  lemma ClashReplaces(c: Crypto, w: World, p: nat, q: nat)
    requires p != q && Clash(c, PcOf(w, p), PcOf(w, q))
    ensures var w' := NextWorld(c, w, Go(p)); Replaces(c, w'.keyring, PcOf(w', q))
  {
    WriteIs(c, w, p);
  }

  lemma UncleanBreaks(c: Crypto, w: World) returns (es: seq<Step>)
    requires !Clean(c, w)
    ensures NoOverlap(c, w, es) && !WriteOnceAlong(c, w, es)
  {
    if p :| p in w.pcs && Replaces(c, w.keyring, w.pcs[p]) {
      BreaksAt(c, w, [], p);
      es := [] + [Go(p)];
      assert es[..0] == [];
    } else {
      var p, q :| p in w.pcs && q in w.pcs && p != q && Clash(c, w.pcs[p], w.pcs[q]);
      ClashReplaces(c, w, p, q);
      RunSnocWorld(c, w, [], Go(p));
      BreaksAt(c, w, [] + [Go(p)], q);
      es := [] + [Go(p)] + [Go(q)];
      WritesDoNotOverlap(c, w, p, q);
    }
  }

  lemma WritesDoNotOverlap(c: Crypto, w: World, p: nat, q: nat)
    requires EntryOf(PcOf(w, p)).Some? && EntryOf(PcOf(w, q)).Some? && p != q
    ensures NoOverlap(c, w, [] + [Go(p)] + [Go(q)])
  {
    var es := [] + [Go(p)] + [Go(q)];
    WriteIs(c, w, p);
    assert es[..0] == [] && es[..1] == [] + [Go(p)];
    RunSnocWorld(c, w, [], Go(p));
  }

  /** Pins are written once in every later run without overlapping reads, exactly when the world is clean. */
  lemma WriteOnceExactlyWhen(c: Crypto, w: World)
    ensures (forall es :: NoOverlap(c, w, es) ==> WriteOnceAlong(c, w, es)) <==> Clean(c, w)
  {
    if Clean(c, w) {
      forall es | NoOverlap(c, w, es)
        ensures WriteOnceAlong(c, w, es)
      {
        SerialRunsWriteOnce(c, w, es);
      }
    } else {
      var es := UncleanBreaks(c, w);
    }
  }

  /**
   Two processes pin one user to different keys at the same time: both succeed, and the second key replaces the
   first.
   */
  lemma RacingPinsReplace(c: Crypto, k: Keyring, a: Claim, b: Claim)
    requires KeyAccepted(c, a) && KeyAccepted(c, b) && a.workspace == b.workspace && a.user == b.user && a.key != b.key
    requires Load(c, k, a.workspace, a.user) == Ok(None)
    ensures
      var es := [] + [BeginPin(1, a)] + [BeginPin(2, b)] + [Go(1)];
      Load(c, RunWorld(c, World(k, map[]), es).keyring, a.workspace, a.user) == Ok(Some(PinOf(c, a)))
    ensures
      var es := [] + [BeginPin(1, a)] + [BeginPin(2, b)] + [Go(1)] + [Go(2)];
      Load(c, RunWorld(c, World(k, map[]), es).keyring, a.workspace, a.user) == Ok(Some(PinOf(c, b)))
  {
    var w := World(k, map[]);
    var es := [] + [BeginPin(1, a)] + [BeginPin(2, b)];
    RunSnocWorld(c, w, [], BeginPin(1, a));
    RunSnocWorld(c, w, [] + [BeginPin(1, a)], BeginPin(2, b));
    RunSnocWorld(c, w, es, Go(1));
    RunSnocWorld(c, w, es + [Go(1)], Go(2));
  }
}
