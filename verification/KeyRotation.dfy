/**
 Concurrent Workspace key rotations, grants and syncs by any number of devices against one Gateway
 (src/vgen/cli/workspace_envelopes.py; the Gateway's compare-and-swap is rotate_workspace_key in
 src/vgen/gateway/repository.py).  Requests and replies are separate steps, and replies may be lost.
 */
module KeyRotation {
  import opened Common
  import opened KeyGrants

  type Device = string

  /** The Gateway's row for one Workspace: its key version, its recipients and the live envelopes. */
  datatype Gateway = Gateway(version: int, recipients: seq<Recipient>, envelopes: map<(Pair, int), Envelope>)

  /** A rotation a device has built; `confirmed` once it has seen the Gateway's success. */
  datatype Rotation = Rotation(device: Device, snapshot: Snapshot, key: Key, confirmed: bool)

  datatype World = World(
    gateway: Gateway,
    stores: map<Device, map<int, Key>>,
    rotations: map<int, Rotation>,
    activated: map<int, Key>)

  datatype Event =
    | SetRecipients(recipients: seq<Recipient>)
    | Initialize(device: Device, version: int, key: Key)
    | Build(rid: int, device: Device, expected: Option<int>, key: Key)
    | Post(rid: int, replyLost: bool)
    | Save(rid: int)
    | Abandon(rid: int)
    | GrantKey(device: Device, recipient: Recipient)
    | Sync(device: Device, pair: Pair, version: int, secret: string, aad: Aad)

  const WORKSPACE := "w"

  function StoreKey(w: World, d: Device, version: int, key: Key): World {
    w.(stores := w.stores[d := (if d in w.stores then w.stores[d] else map[])[version := key]])
  }

  /** What the Gateway answers to a snapshot request. */
  ghost predicate IsSnapshot(g: Gateway, s: Snapshot) {
    s.current == g.version && s.next == g.version + 1 && s.recipients == g.recipients && Ordered(g.recipients, s.digest)
  }

  function Grants(r: Rotation): seq<Grant> {
    GrantsFor(WORKSPACE, r.snapshot.digest, r.snapshot.next, r.key)
  }

  /** The envelopes of the grants, on top of those already stored. */
  function Stored(envelopes: map<(Pair, int), Envelope>, gs: seq<Grant>): map<(Pair, int), Envelope> {
    if gs == [] then envelopes
    else
      var g := gs[|gs| - 1];
      Stored(envelopes, gs[..|gs| - 1])[(g.pair, g.version) := g.envelope]
  }

  /** The Gateway takes a rotation: nothing changed since the snapshot, and the new version is unused. */
  ghost predicate Takes(g: Gateway, r: Rotation) {
    && r.snapshot.next == r.snapshot.current + 1
    && Ordered(g.recipients, r.snapshot.digest)
    && g.version == r.snapshot.current
    && forall p: Pair :: (p, r.snapshot.next) !in g.envelopes
  }

  /** An identical repetition of the rotation that made the current version is answered as a success. */
  ghost predicate Replays(g: Gateway, r: Rotation) {
    && g.version == r.snapshot.next
    && r.snapshot.digest != []
    && Ordered(g.recipients, r.snapshot.digest)
    && forall k :: 0 <= k < |Grants(r)| ==>
         (Grants(r)[k].pair, r.snapshot.next) in g.envelopes
         && g.envelopes[(Grants(r)[k].pair, r.snapshot.next)] == Grants(r)[k].envelope
  }

  ghost function Next(w: World, e: Event): World {
    match e
    case SetRecipients(rs) => w.(gateway := w.gateway.(recipients := rs))
    case Initialize(d, v, key) => if 1 <= v <= w.gateway.version then StoreKey(w, d, v, key) else w
    case Build(rid, d, expected, key) => BuildRotation(w, rid, d, expected, key)
    case Post(rid, replyLost) => if rid in w.rotations then PostRotation(w, rid, replyLost) else w
    case Save(rid) =>
      if rid in w.rotations && w.rotations[rid].confirmed
      then StoreKey(w, w.rotations[rid].device, w.rotations[rid].snapshot.next, w.rotations[rid].key)
      else w
    case Abandon(rid) => w.(rotations := w.rotations - {rid})
    case GrantKey(d, r) => PostGrant(w, d, r)
    case Sync(d, pair, version, secret, aad) =>
      if (pair, version) in w.gateway.envelopes && Open(secret, w.gateway.envelopes[(pair, version)], aad).Some?
      then StoreKey(w, d, version, Open(secret, w.gateway.envelopes[(pair, version)], aad).value)
      else w
  }

  ghost function BuildRotation(w: World, rid: int, d: Device, expected: Option<int>, key: Key): World {
    if rid in w.rotations || !exists s :: IsSnapshot(w.gateway, s) && Usable(s, expected) then w
    else
      var s :| IsSnapshot(w.gateway, s) && Usable(s, expected);
      w.(rotations := w.rotations[rid := Rotation(d, s, key, false)])
  }

  ghost function PostRotation(w: World, rid: int, replyLost: bool): World
    requires rid in w.rotations
  {
    var r := w.rotations[rid];
    var confirmed := w.rotations[rid := r.(confirmed := r.confirmed || !replyLost)];
    if Takes(w.gateway, r) then
      World(Gateway(r.snapshot.next, w.gateway.recipients, Stored(w.gateway.envelopes, Grants(r))),
            w.stores, confirmed, w.activated[r.snapshot.next := r.key])
    else if Replays(w.gateway, r) then w.(rotations := confirmed)
    else w
  }

  /** grant_workspace_key with the key the device holds for the current version. */
  ghost function PostGrant(w: World, d: Device, r: Recipient): World {
    var v := w.gateway.version;
    if d in w.stores && v in w.stores[d] && ValidRecipient(r) && r in w.gateway.recipients
    then w.(gateway := w.gateway.(envelopes :=
           w.gateway.envelopes[(PairOf(r), v) := GrantFor(WORKSPACE, r, v, w.stores[d][v]).envelope]))
    else w
  }

  const NEW_WORKSPACE := World(Gateway(1, [], map[]), map[], map[], map[])

  ghost function Run(w: World, es: seq<Event>): World {
    if es == [] then w else Next(Run(w, es[..|es| - 1]), es[|es| - 1])
  }

  // ----- what every step keeps -----

  ghost predicate StoresAgree(w: World) {
    forall d, v :: d in w.stores && v in w.stores[d] && v in w.activated ==> w.stores[d][v] == w.activated[v]
  }

  ghost predicate StoresBounded(w: World) {
    forall d, v :: d in w.stores && v in w.stores[d] ==> 1 <= v <= w.gateway.version
  }

  ghost predicate EnvelopesAgree(w: World) {
    forall p: Pair, v :: (p, v) in w.gateway.envelopes ==>
      1 <= v <= w.gateway.version && (v in w.activated ==> w.gateway.envelopes[(p, v)].key == w.activated[v])
  }

  /** Every version but the first was made by exactly one rotation. */
  ghost predicate ActivatedVersions(w: World) {
    1 <= w.gateway.version && forall v :: v in w.activated <==> 2 <= v <= w.gateway.version
  }

  ghost predicate RotationsAgree(w: World) {
    forall rid :: rid in w.rotations ==>
      && 1 <= w.rotations[rid].snapshot.current
      && w.rotations[rid].snapshot.next == w.rotations[rid].snapshot.current + 1
      && (w.rotations[rid].confirmed ==>
           w.rotations[rid].snapshot.next in w.activated
           && w.activated[w.rotations[rid].snapshot.next] == w.rotations[rid].key)
  }

  ghost predicate Inv(w: World) {
    StoresAgree(w) && StoresBounded(w) && EnvelopesAgree(w) && ActivatedVersions(w) && RotationsAgree(w)
  }

  lemma {:induction false} StoredEnvelopes(
      envelopes: map<(Pair, int), Envelope>, gs: seq<Grant>, version: int, key: Key)
    requires forall k :: 0 <= k < |gs| ==> gs[k].version == version && gs[k].envelope.key == key
    ensures forall p: Pair, v :: (p, v) in Stored(envelopes, gs) ==>
      if (p, v) in envelopes && v != version then Stored(envelopes, gs)[(p, v)] == envelopes[(p, v)]
      else (v == version && (Stored(envelopes, gs)[(p, v)].key == key || (p, v) in envelopes))
    ensures forall p: Pair, v :: (p, v) in envelopes ==> (p, v) in Stored(envelopes, gs)
    ensures (forall p: Pair :: (p, version) !in envelopes) ==>
      forall p: Pair :: (p, version) in Stored(envelopes, gs) ==> Stored(envelopes, gs)[(p, version)].key == key
  {
    if gs != [] {
      StoredEnvelopes(envelopes, gs[..|gs| - 1], version, key);
    }
  }

  lemma TakenOk(w: World, rid: int, replyLost: bool)
    requires Inv(w) && rid in w.rotations && Takes(w.gateway, w.rotations[rid])
    ensures Inv(PostRotation(w, rid, replyLost))
  {
    var r := w.rotations[rid];
    StoredEnvelopes(w.gateway.envelopes, Grants(r), r.snapshot.next, r.key);
  }

  lemma ReplayedOk(w: World, rid: int, replyLost: bool)
    requires Inv(w) && rid in w.rotations && Replays(w.gateway, w.rotations[rid])
    ensures w.rotations[rid].snapshot.next in w.activated
    ensures w.activated[w.rotations[rid].snapshot.next] == w.rotations[rid].key
  {
    var r := w.rotations[rid];
    var g := Grants(r)[0];
    assert w.gateway.envelopes[(g.pair, r.snapshot.next)] == g.envelope;
  }

  lemma PostOk(w: World, rid: int, replyLost: bool)
    requires Inv(w) && rid in w.rotations
    ensures Inv(PostRotation(w, rid, replyLost))
  {
    if Takes(w.gateway, w.rotations[rid]) {
      TakenOk(w, rid, replyLost);
    } else if Replays(w.gateway, w.rotations[rid]) {
      ReplayedOk(w, rid, replyLost);
    }
  }

  lemma StoreOk(w: World, d: Device, version: int, key: Key)
    requires Inv(w) && 1 <= version <= w.gateway.version && (version in w.activated ==> w.activated[version] == key)
    ensures Inv(StoreKey(w, d, version, key))
  {
  }

  /**
   initialize_workspace_keys makes a key of its own for the Workspace's version.  It is called for a new
   Workspace, at version 1, and by setup when no envelope opens on the device; the latter is harmless only at a
   version that no rotation made.
   */
  ghost predicate Harmless(w: World, e: Event) {
    e.Initialize? && e.version in w.activated ==> e.key == w.activated[e.version]
  }

  ghost predicate HarmlessRun(es: seq<Event>) {
    forall n :: 0 <= n < |es| ==> Harmless(Run(NEW_WORKSPACE, es[..n]), es[n])
  }

  lemma NextKeepsInv(w: World, e: Event)
    requires Inv(w) && Harmless(w, e)
    ensures Inv(Next(w, e))
  {
    match e
    case Initialize(d, v, key) => if 1 <= v <= w.gateway.version { StoreOk(w, d, v, key); }
    case Post(rid, replyLost) => if rid in w.rotations { PostOk(w, rid, replyLost); }
    case Save(rid) =>
      if rid in w.rotations && w.rotations[rid].confirmed {
        StoreOk(w, w.rotations[rid].device, w.rotations[rid].snapshot.next, w.rotations[rid].key);
      }
    case Sync(d, pair, version, secret, aad) =>
      if (pair, version) in w.gateway.envelopes && Open(secret, w.gateway.envelopes[(pair, version)], aad).Some? {
        StoreOk(w, d, version, w.gateway.envelopes[(pair, version)].key);
      }
    case _ =>
  }

  /** A step keeps every stored key the activated one exactly when it does not initialise a rotated version anew. */
  lemma NextKeepsInvExactlyWhen(w: World, e: Event)
    requires Inv(w)
    ensures Inv(Next(w, e)) <==> Harmless(w, e)
  {
    if Harmless(w, e) {
      NextKeepsInv(w, e);
    } else {
      var w' := Next(w, e);
      assert e.device in w'.stores && e.version in w'.stores[e.device] && w'.stores[e.device][e.version] == e.key;
    }
  }

  lemma {:induction false} RunKeepsInv(es: seq<Event>)
    requires HarmlessRun(es)
    ensures Inv(Run(NEW_WORKSPACE, es))
  {
    if es != [] {
      var n := |es| - 1;
      assert forall i :: 0 <= i < n ==> es[..n][..i] == es[..i];
      RunKeepsInv(es[..n]);
      NextKeepsInv(Run(NEW_WORKSPACE, es[..n]), es[n]);
    }
  }

  /** At every point of a run stores and envelopes agree with what was activated, exactly when the run is harmless. */
  lemma RunKeepsInvExactlyWhen(es: seq<Event>)
    ensures (forall n :: 0 <= n <= |es| ==> Inv(Run(NEW_WORKSPACE, es[..n]))) <==> HarmlessRun(es)
  {
    if HarmlessRun(es) {
      forall n | 0 <= n <= |es|
        ensures Inv(Run(NEW_WORKSPACE, es[..n]))
      {
        assert forall i :: 0 <= i < n ==> es[..n][..i] == es[..i];
        RunKeepsInv(es[..n]);
      }
    }
    if forall n :: 0 <= n <= |es| ==> Inv(Run(NEW_WORKSPACE, es[..n])) {
      forall n | 0 <= n < |es|
        ensures Harmless(Run(NEW_WORKSPACE, es[..n]), es[n])
      {
        RunPrefix(NEW_WORKSPACE, es, n);
        NextKeepsInvExactlyWhen(Run(NEW_WORKSPACE, es[..n]), es[n]);
      }
    }
  }

  lemma RunPrefix(w: World, es: seq<Event>, n: nat)
    requires n < |es|
    ensures Run(w, es[..n + 1]) == Next(Run(w, es[..n]), es[n])
  {
    assert es[..n + 1][..n] == es[..n];
  }

  lemma RunSnoc(w: World, es: seq<Event>, e: Event)
    ensures Run(w, es + [e]) == Next(Run(w, es), e)
  {
    assert (es + [e])[..|es|] == es;
  }

  /** Device a rotates a new Workspace to version 2. */
  function RotatedRun(r: Recipient, a: Device, k: Key): seq<Event> {
    [] + [SetRecipients([r])] + [Build(1, a, None, k)] + [Post(1, false)]
  }

  lemma OnlySnapshot(r: Recipient)
    requires ValidRecipient(r)
    ensures IsSnapshot(Gateway(1, [r], map[]), Snapshot(1, 2, [r], [r])) && Usable(Snapshot(1, 2, [r], [r]), None)
    ensures forall s :: IsSnapshot(Gateway(1, [r], map[]), s) ==> s == Snapshot(1, 2, [r], [r])
  {
    forall s | IsSnapshot(Gateway(1, [r], map[]), s)
      ensures s == Snapshot(1, 2, [r], [r])
    {
      OrderedUnique([r], s.digest);
    }
  }

  lemma BuiltWorld(r: Recipient, a: Device, k: Key)
    requires ValidRecipient(r)
    ensures Run(NEW_WORKSPACE, [] + [SetRecipients([r])] + [Build(1, a, None, k)]) ==
      World(Gateway(1, [r], map[]), map[], map[1 := Rotation(a, Snapshot(1, 2, [r], [r]), k, false)], map[])
  {
    RunSnoc(NEW_WORKSPACE, [], SetRecipients([r]));
    RunSnoc(NEW_WORKSPACE, [] + [SetRecipients([r])], Build(1, a, None, k));
    FirstBuild(r, a, k);
  }

  lemma FirstBuild(r: Recipient, a: Device, k: Key)
    requires ValidRecipient(r)
    ensures Next(World(Gateway(1, [r], map[]), map[], map[], map[]), Build(1, a, None, k)) ==
      World(Gateway(1, [r], map[]), map[], map[1 := Rotation(a, Snapshot(1, 2, [r], [r]), k, false)], map[])
  {
    OnlySnapshot(r);
    var w := World(Gateway(1, [r], map[]), map[], map[], map[]);
    assert exists s :: IsSnapshot(w.gateway, s) && Usable(s, None);
    var w' := BuildRotation(w, 1, a, None, k);
    assert w'.rotations == map[1 := Rotation(a, Snapshot(1, 2, [r], [r]), k, false)];
  }

  /**
   Setup on a device that opens no envelope, after a rotation: the key it makes and stores for version 2 is not
   the one that was activated.
   */
  lemma SetupStoresAnotherKey(r: Recipient, a: Device, b: Device, k: Key, k': Key)
    requires ValidRecipient(r) && k != k'
    ensures
      var w := Run(NEW_WORKSPACE, RotatedRun(r, a, k) + [Initialize(b, 2, k')]);
      && 2 in w.activated && w.activated[2] == k
      && b in w.stores && 2 in w.stores[b] && w.stores[b][2] == k'
  {
    BuiltWorld(r, a, k);
    RunSnoc(NEW_WORKSPACE, [] + [SetRecipients([r])] + [Build(1, a, None, k)], Post(1, false));
    OnlySnapshot(r);
    RunSnoc(NEW_WORKSPACE, RotatedRun(r, a, k), Initialize(b, 2, k'));
  }

  /** Whatever devices rotate, sync, grant or lose replies: a stored key of a rotated version is the activated one. */
  lemma StoredKeysAreActivated(es: seq<Event>, d: Device, v: int)
    requires HarmlessRun(es)
    requires d in Run(NEW_WORKSPACE, es).stores && v in Run(NEW_WORKSPACE, es).stores[d] && v > 1
    ensures v in Run(NEW_WORKSPACE, es).activated
    ensures Run(NEW_WORKSPACE, es).stores[d][v] == Run(NEW_WORKSPACE, es).activated[v]
  {
    RunKeepsInv(es);
  }

  /** No step changes the key activated for a version, or the version by more than one. */
  lemma ActivationIsFinal(w: World, e: Event, v: int)
    requires ActivatedVersions(w) && v in w.activated
    ensures v in Next(w, e).activated && Next(w, e).activated[v] == w.activated[v]
  {
  }

  lemma StepKeepsVersions(w: World, e: Event)
    requires ActivatedVersions(w)
    ensures ActivatedVersions(Next(w, e))
    ensures w.gateway.version <= Next(w, e).gateway.version
  {
  }

  /** However a run goes on, harmless or not, the key activated for a version stays the one it was. */
  lemma {:induction false} ActivatedForever(w: World, es: seq<Event>, v: int)
    requires ActivatedVersions(w) && v in w.activated
    ensures ActivatedVersions(Run(w, es)) && v in Run(w, es).activated && Run(w, es).activated[v] == w.activated[v]
  {
    if es != [] {
      var n := |es| - 1;
      ActivatedForever(w, es[..n], v);
      StepKeepsVersions(Run(w, es[..n]), es[n]);
      ActivationIsFinal(Run(w, es[..n]), es[n], v);
    }
  }

  /** Any live envelope of a rotated version opens, for whoever can open it, to the activated key. */
  lemma EnvelopesOpenToActivated(es: seq<Event>, p: Pair, v: int, secret: string, aad: Aad)
    requires HarmlessRun(es) && v > 1 && (p, v) in Run(NEW_WORKSPACE, es).gateway.envelopes
    requires Open(secret, Run(NEW_WORKSPACE, es).gateway.envelopes[(p, v)], aad).Some?
    ensures v in Run(NEW_WORKSPACE, es).activated
    ensures
      var w := Run(NEW_WORKSPACE, es);
      Open(secret, w.gateway.envelopes[(p, v)], aad).value == w.activated[v]
  {
    RunKeepsInv(es);
  }

  /** At position n of the run the Gateway takes a rotation to version v. */
  ghost predicate TakenAt(es: seq<Event>, n: nat, v: int) {
    && n < |es| && es[n].Post?
    && var w := Run(NEW_WORKSPACE, es[..n]);
    && es[n].rid in w.rotations && Takes(w.gateway, w.rotations[es[n].rid])
    && w.rotations[es[n].rid].snapshot.next == v
  }

  lemma {:induction false} RunVersions(es: seq<Event>)
    ensures ActivatedVersions(Run(NEW_WORKSPACE, es))
  {
    if es != [] {
      RunVersions(es[..|es| - 1]);
      StepKeepsVersions(Run(NEW_WORKSPACE, es[..|es| - 1]), es[|es| - 1]);
    }
  }

  lemma {:induction false} VersionGrows(es: seq<Event>, n: nat, m: nat)
    requires n <= m <= |es|
    ensures Run(NEW_WORKSPACE, es[..n]).gateway.version <= Run(NEW_WORKSPACE, es[..m]).gateway.version
    decreases m
  {
    if n < m {
      VersionGrows(es, n, m - 1);
      RunPrefix(NEW_WORKSPACE, es, m - 1);
      RunVersions(es[..m - 1]);
      StepKeepsVersions(Run(NEW_WORKSPACE, es[..m - 1]), es[m - 1]);
    }
  }

  lemma LaterIsNotTaken(es: seq<Event>, n: nat, m: nat, v: int)
    requires TakenAt(es, n, v) && n < m
    ensures !TakenAt(es, m, v)
  {
    if m < |es| {
      RunPrefix(NEW_WORKSPACE, es, n);
      VersionGrows(es, n + 1, m);
    }
  }

  /** In every run, whatever is interleaved or lost, each version is made by at most one rotation. */
  lemma OneWinnerPerVersion(es: seq<Event>, n: nat, m: nat, v: int)
    requires TakenAt(es, n, v) && TakenAt(es, m, v)
    ensures n == m
  {
    if n < m {
      LaterIsNotTaken(es, n, m, v);
    } else if m < n {
      LaterIsNotTaken(es, m, n, v);
    }
  }
}
