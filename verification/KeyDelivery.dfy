/**
 What rotations, grants and syncs bring about: which step puts which key into which store and which envelope at
 the Gateway, and that a rotated key reaches the device that rotated it and every recipient.
 */
module KeyDelivery {
  import opened Common
  import opened KeyGrants
  import opened KeyRotation

  function KeyHeld(w: World, d: Device, v: int): Option<Key> {
    if d in w.stores && v in w.stores[d] then Some(w.stores[d][v]) else None
  }

  function EnvelopeAt(w: World, p: Pair, v: int): Option<Envelope> {
    if (p, v) in w.gateway.envelopes then Some(w.gateway.envelopes[(p, v)]) else None
  }

  // ----- what rotations are made of -----

  ghost predicate RotationsUsable(w: World) {
    forall rid :: rid in w.rotations ==> Usable(w.rotations[rid].snapshot, None)
  }

  lemma {:induction false} RunUsable(es: seq<Event>)
    ensures RotationsUsable(Run(NEW_WORKSPACE, es))
  {
    if es != [] {
      RunUsable(es[..|es| - 1]);
      StepUsable(Run(NEW_WORKSPACE, es[..|es| - 1]), es[|es| - 1]);
    }
  }

  lemma StepUsable(w: World, e: Event)
    requires RotationsUsable(w)
    ensures RotationsUsable(Next(w, e))
  {
  }

  /** The recipients are such that a rotation can be built for them. */
  ghost predicate Rotatable(rs: seq<Recipient>) {
    && rs != []
    && (forall i :: 0 <= i < |rs| ==>
         && (rs[i].kind == "user_recovery" || rs[i].kind == "device" || rs[i].kind == "service")
         && rs[i].id != "" && rs[i].binding.Some?)
    && (forall i, j :: 0 <= i < j < |rs| ==> (rs[i].kind, rs[i].id) != (rs[j].kind, rs[j].id))
  }

  lemma HasSnapshot(g: Gateway, expected: Option<int>)
    ensures (exists s :: IsSnapshot(g, s) && Usable(s, expected)) <==>
      Rotatable(g.recipients) && (expected.Some? ==> expected.value == g.version)
  {
    if Rotatable(g.recipients) && (expected.Some? ==> expected.value == g.version) {
      var sorted := SortedRecipients(g.recipients);
      var s := Snapshot(g.version, g.version + 1, g.recipients, sorted);
      assert IsSnapshot(g, s) && Usable(s, expected);
    }
  }

  lemma {:induction false} SortedRecipients(rs: seq<Recipient>) returns (sorted: seq<Recipient>)
    ensures Ordered(rs, sorted)
  {
    sorted := [];
    if rs != [] {
      var n := |rs| - 1;
      var front := SortedRecipients(rs[..n]);
      sorted := Inserted(front, rs[n]);
      assert rs == rs[..n] + [rs[n]];
    }
  }

  lemma {:induction false} Inserted(rs: seq<Recipient>, r: Recipient) returns (out: seq<Recipient>)
    requires InOrder(rs)
    ensures InOrder(out) && multiset(out) == multiset(rs) + multiset{r}
    ensures out != [] && forall i :: 0 <= i < |out| ==> out[i] in rs || out[i] == r
  {
    if rs == [] || Precedes(rs[|rs| - 1], r) {
      out := rs + [r];
      LastInOrder(rs, r);
    } else {
      var last, front := rs[|rs| - 1], rs[..|rs| - 1];
      assert rs == front + [last];
      var inner := Inserted(front, r);
      out := inner + [last];
      PrecedesTotal(last, r);
      forall i | 0 <= i < |inner|
        ensures Precedes(inner[i], last)
      {
        if inner[i] in front {
          var j :| 0 <= j < |front| && front[j] == inner[i];
          assert rs[j] == inner[i];
        }
      }
    }
  }

  lemma LastInOrder(rs: seq<Recipient>, r: Recipient)
    requires InOrder(rs) && (rs != [] ==> Precedes(rs[|rs| - 1], r))
    ensures InOrder(rs + [r])
  {
    forall i | 0 <= i < |rs|
      ensures Precedes(rs[i], r)
    {
      if i < |rs| - 1 {
        PrecedesTransitive(rs[i], rs[|rs| - 1], r);
      }
    }
  }

  /**
   A device builds a rotation exactly when the recipients allow it and the version is the one it expects; the
   rotation is of the current recipients, to the next version, and not yet confirmed.
   */
  lemma BuiltExactlyWhen(w: World, rid: int, d: Device, expected: Option<int>, key: Key)
    requires rid !in w.rotations
    ensures
      var w' := Next(w, Build(rid, d, expected, key));
      && (rid in w'.rotations <==>
           Rotatable(w.gateway.recipients) && (expected.Some? ==> expected.value == w.gateway.version))
      && (rid in w'.rotations ==>
           var r := w'.rotations[rid];
           && r.device == d && r.key == key && !r.confirmed
           && r.snapshot.current == w.gateway.version && r.snapshot.next == w.gateway.version + 1
           && r.snapshot.recipients == w.gateway.recipients)
  {
    HasSnapshot(w.gateway, expected);
  }

  // ----- what the Gateway takes -----

  /** Nothing changed at the Gateway since the snapshot. */
  ghost predicate Unchanged(g: Gateway, r: Rotation) {
    g.version == r.snapshot.current && multiset(g.recipients) == multiset(r.snapshot.recipients)
  }

  lemma TakesIs(w: World, r: Rotation)
    requires Usable(r.snapshot, None) && forall p: Pair, v :: (p, v) in w.gateway.envelopes ==> v <= w.gateway.version
    ensures Takes(w.gateway, r) <==> Unchanged(w.gateway, r)
  {
  }

  /** No envelope is of a version to come. */
  ghost predicate EnvelopesPast(w: World) {
    forall p: Pair, v :: (p, v) in w.gateway.envelopes ==> v <= w.gateway.version
  }

  lemma StepPast(w: World, e: Event)
    requires EnvelopesPast(w)
    ensures EnvelopesPast(Next(w, e))
  {
    if e.Post? && e.rid in w.rotations {
      var r := w.rotations[e.rid];
      StoredEnvelopes(w.gateway.envelopes, Grants(r), r.snapshot.next, r.key);
    }
  }

  lemma {:induction false} RunPast(es: seq<Event>)
    ensures EnvelopesPast(Run(NEW_WORKSPACE, es))
  {
    if es != [] {
      RunPast(es[..|es| - 1]);
      StepPast(Run(NEW_WORKSPACE, es[..|es| - 1]), es[|es| - 1]);
    }
  }

  /**
   In every run the Gateway moves to the next version exactly when a posted rotation was built for the version and
   the recipients it still has, and its key is then the activated one.
   */
  lemma TakenExactlyWhen(es: seq<Event>, e: Event)
    ensures
      var w, w' := Run(NEW_WORKSPACE, es), Run(NEW_WORKSPACE, es + [e]);
      var taken := e.Post? && e.rid in w.rotations && Unchanged(w.gateway, w.rotations[e.rid]);
      && w'.gateway.version == w.gateway.version + (if taken then 1 else 0)
      && w'.activated == if taken then w.activated[w.gateway.version + 1 := w.rotations[e.rid].key] else w.activated
  {
    var w := Run(NEW_WORKSPACE, es);
    RunSnoc(NEW_WORKSPACE, es, e);
    RunUsable(es);
    RunPast(es);
    if e.Post? && e.rid in w.rotations {
      TakesIs(w, w.rotations[e.rid]);
    }
  }

  // ----- which step stores which key -----

  /** What a step puts into the store of device d for version v. */
  ghost predicate Puts(w: World, e: Event, d: Device, v: int, key: Key) {
    match e
    case Initialize(d', v', k) => d' == d && v' == v && k == key && 1 <= v <= w.gateway.version
    case Save(rid) =>
      && rid in w.rotations && w.rotations[rid].confirmed && w.rotations[rid].device == d
      && w.rotations[rid].snapshot.next == v && w.rotations[rid].key == key
    case Sync(d', p, v', secret, aad) =>
      && d' == d && v' == v && EnvelopeAt(w, p, v).Some?
      && EnvelopeAt(w, p, v).value == Sealed(Public(secret), key, aad)
    case _ => false
  }

  /** A store holds what the step puts there, if anything, and otherwise what it held. */
  lemma StoreExactlyWhen(w: World, e: Event, d: Device, v: int)
    ensures forall key :: Puts(w, e, d, v, key) ==> KeyHeld(Next(w, e), d, v) == Some(key)
    ensures (forall key :: !Puts(w, e, d, v, key)) ==> KeyHeld(Next(w, e), d, v) == KeyHeld(w, d, v)
  {
    if e.Sync? && EnvelopeAt(w, e.pair, e.version).Some? {
      var s := EnvelopeAt(w, e.pair, e.version).value;
      if Open(e.secret, s, e.aad).Some? {
        assert s == Sealed(Public(e.secret), s.key, e.aad);
        assert d == e.device && v == e.version ==> Puts(w, e, d, v, s.key);
      }
    }
    if e.Save? && e.rid in w.rotations && w.rotations[e.rid].confirmed {
      var r := w.rotations[e.rid];
      assert d == r.device && v == r.snapshot.next ==> Puts(w, e, d, v, r.key);
    }
    if e.Initialize? && 1 <= e.version <= w.gateway.version {
      assert d == e.device && v == e.version ==> Puts(w, e, d, v, e.key);
    }
  }

  // ----- which envelopes a rotation leaves -----

  lemma {:induction false} StoredGrants(envelopes: map<(Pair, int), Envelope>, gs: seq<Grant>, k: nat)
    requires k < |gs| && forall i, j :: 0 <= i < j < |gs| ==> gs[i].pair != gs[j].pair
    ensures (gs[k].pair, gs[k].version) in Stored(envelopes, gs)
    ensures Stored(envelopes, gs)[(gs[k].pair, gs[k].version)] == gs[k].envelope
  {
    var n := |gs| - 1;
    if k < n {
      StoredGrants(envelopes, gs[..n], k);
      assert gs[k].pair != gs[n].pair;
    }
  }

  /** What is sealed for a recipient: the key, for its public key, bound to all that names it. */
  function SealedFor(r: Recipient, v: int, key: Key): Envelope {
    Sealed(r.publicKey, key, Aad(WORKSPACE, r.kind, r.id, v, r.binding))
  }

  /** A rotation that is taken leaves one envelope for every recipient of its snapshot, sealed for that one. */
  lemma TakenIsSealed(w: World, rid: int, replyLost: bool, r: Recipient)
    requires RotationsUsable(w) && rid in w.rotations && Takes(w.gateway, w.rotations[rid])
    requires r in w.rotations[rid].snapshot.recipients
    ensures
      var rotation, w' := w.rotations[rid], Next(w, Post(rid, replyLost));
      EnvelopeAt(w', (r.kind, r.id), rotation.snapshot.next) == Some(SealedFor(r, rotation.snapshot.next, rotation.key))
  {
    RotationIsSealed(w.gateway.envelopes, w.rotations[rid], r);
    assert Next(w, Post(rid, replyLost)).gateway.envelopes == Stored(w.gateway.envelopes, Grants(w.rotations[rid]));
  }

  lemma RotationIsSealed(envelopes: map<(Pair, int), Envelope>, rotation: Rotation, r: Recipient)
    requires Usable(rotation.snapshot, None) && r in rotation.snapshot.recipients
    ensures
      var v, stored := rotation.snapshot.next, Stored(envelopes, Grants(rotation));
      ((r.kind, r.id), v) in stored && stored[((r.kind, r.id), v)] == SealedFor(r, v, rotation.key)
  {
    var s, gs := rotation.snapshot, Grants(rotation);
    GrantsMatchRecipients(WORKSPACE, s, None, rotation.key);
    SameMembers(s, r);
    var k :| 0 <= k < |s.digest| && s.digest[k] == r;
    assert gs[k] == GrantFor(WORKSPACE, r, s.next, rotation.key);
    StoredGrants(envelopes, gs, k);
  }

  /** A grant leaves an envelope for the recipient with the key the device holds for the current version. */
  lemma GrantIsSealed(w: World, d: Device, r: Recipient)
    requires KeyHeld(w, d, w.gateway.version).Some? && ValidRecipient(r) && r in w.gateway.recipients
    ensures
      var v := w.gateway.version;
      EnvelopeAt(Next(w, GrantKey(d, r)), (r.kind, r.id), v) == Some(SealedFor(r, v, KeyHeld(w, d, v).value))
  {
  }

  /** The envelopes of versions before the current one stay as they are, whatever happens. */
  lemma OldEnvelopesStay(w: World, e: Event, p: Pair, v: int)
    requires v < w.gateway.version && RotationsUsable(w)
    ensures EnvelopeAt(Next(w, e), p, v) == EnvelopeAt(w, p, v)
  {
    if e.Post? && e.rid in w.rotations && Takes(w.gateway, w.rotations[e.rid]) {
      var r := w.rotations[e.rid];
      StoredEnvelopes(w.gateway.envelopes, Grants(r), r.snapshot.next, r.key);
    }
  }

  /** The Gateway is at the rotation's version with the very envelopes of the rotation. */
  ghost predicate IsThisRotation(w: World, r: Rotation) {
    && w.gateway.version == r.snapshot.next && multiset(w.gateway.recipients) == multiset(r.snapshot.recipients)
    && forall x :: x in r.snapshot.recipients ==>
         EnvelopeAt(w, (x.kind, x.id), r.snapshot.next) == Some(SealedFor(x, r.snapshot.next, r.key))
  }

  lemma SameMembers(s: Snapshot, x: Recipient)
    requires Usable(s, None)
    ensures x in s.recipients <==> x in s.digest
  {
    assert x in multiset(s.recipients) <==> x in multiset(s.digest);
  }

  /** The k-th grant is at the Gateway as it was built. */
  ghost predicate GrantAt(w: World, r: Rotation, k: nat) {
    k < |r.snapshot.digest| &&
    var x := r.snapshot.digest[k];
    EnvelopeAt(w, (x.kind, x.id), r.snapshot.next) == Some(SealedFor(x, r.snapshot.next, r.key))
  }

  lemma GrantAtIs(w: World, r: Rotation, k: nat)
    requires k < |r.snapshot.digest|
    ensures
      var g := Grants(r)[k];
      GrantAt(w, r, k) <==>
        (g.pair, r.snapshot.next) in w.gateway.envelopes && w.gateway.envelopes[(g.pair, r.snapshot.next)] == g.envelope
  {
  }

  lemma ReplaysIs(w: World, r: Rotation)
    requires Usable(r.snapshot, None)
    ensures Replays(w.gateway, r) <==> IsThisRotation(w, r)
  {
    var s := r.snapshot;
    forall k: nat | k < |s.digest|
      ensures
        var g := Grants(r)[k];
        GrantAt(w, r, k) <==>
          (g.pair, s.next) in w.gateway.envelopes && w.gateway.envelopes[(g.pair, s.next)] == g.envelope
    {
      GrantAtIs(w, r, k);
    }
    AllGrantsAt(w, r);
    assert s.digest != [] by {
      assert s.recipients[0] in multiset(s.recipients);
    }
  }

  lemma AllGrantsAt(w: World, r: Rotation)
    requires Usable(r.snapshot, None)
    ensures (forall k: nat :: k < |r.snapshot.digest| ==> GrantAt(w, r, k)) <==>
      forall x :: x in r.snapshot.recipients ==>
        EnvelopeAt(w, (x.kind, x.id), r.snapshot.next) == Some(SealedFor(x, r.snapshot.next, r.key))
  {
    var s := r.snapshot;
    forall x
      ensures x in s.recipients <==> x in s.digest
    {
      SameMembers(s, x);
    }
    forall x | x in s.digest && forall k: nat :: k < |s.digest| ==> GrantAt(w, r, k)
      ensures EnvelopeAt(w, (x.kind, x.id), s.next) == Some(SealedFor(x, s.next, r.key))
    {
      var k :| 0 <= k < |s.digest| && s.digest[k] == x;
      assert GrantAt(w, r, k);
    }
  }

  lemma ConfirmStep(w: World, e: Event, rid: int)
    requires rid in w.rotations
    ensures rid in Next(w, e).rotations <==> e != Abandon(rid)
    ensures rid in Next(w, e).rotations ==>
      var r := w.rotations[rid];
      var confirms := e == Post(rid, false) && (Takes(w.gateway, r) || Replays(w.gateway, r));
      Next(w, e).rotations[rid] == r.(confirmed := r.confirmed || confirms)
  {
  }

  /**
   In every run a rotation is forgotten exactly when its device gives it up, and becomes confirmed exactly when its
   answer arrives and the Gateway took it, or finds that it has taken it before.
   */
  lemma ConfirmedExactlyWhen(es: seq<Event>, e: Event, rid: int)
    requires rid in Run(NEW_WORKSPACE, es).rotations
    ensures rid in Run(NEW_WORKSPACE, es + [e]).rotations <==> e != Abandon(rid)
    ensures
      var w, w' := Run(NEW_WORKSPACE, es), Run(NEW_WORKSPACE, es + [e]);
      var r := w.rotations[rid];
      var confirms := e == Post(rid, false) && (Unchanged(w.gateway, r) || IsThisRotation(w, r));
      rid in w'.rotations ==> w'.rotations[rid] == r.(confirmed := r.confirmed || confirms)
  {
    var w := Run(NEW_WORKSPACE, es);
    RunSnoc(NEW_WORKSPACE, es, e);
    RunUsable(es);
    RunPast(es);
    TakesIs(w, w.rotations[rid]);
    ReplaysIs(w, w.rotations[rid]);
    ConfirmStep(w, e, rid);
  }

  // ----- a rotated key arrives -----

  /**
   In every harmless run, saving a rotation that the Gateway confirmed leaves the activated key of its version in
   the store of the device that rotated.
   */
  lemma SavedKeyIsActivated(es: seq<Event>, rid: int)
    requires HarmlessRun(es) && rid in Run(NEW_WORKSPACE, es).rotations
    requires Run(NEW_WORKSPACE, es).rotations[rid].confirmed
    ensures
      var r, w := Run(NEW_WORKSPACE, es).rotations[rid], Run(NEW_WORKSPACE, es + [Save(rid)]);
      && r.snapshot.next in w.activated && w.activated[r.snapshot.next] == r.key
      && KeyHeld(w, r.device, r.snapshot.next) == Some(r.key)
  {
    RunKeepsInv(es);
    RunSnoc(NEW_WORKSPACE, es, Save(rid));
    SaveStep(Run(NEW_WORKSPACE, es), rid);
  }

  lemma SaveStep(w: World, rid: int)
    requires rid in w.rotations && w.rotations[rid].confirmed
    ensures
      var r, w' := w.rotations[rid], Next(w, Save(rid));
      w'.activated == w.activated && w'.gateway == w.gateway && KeyHeld(w', r.device, r.snapshot.next) == Some(r.key)
  {
  }

  /** A taken rotation whose answer arrives is confirmed. */
  lemma TakenIsConfirmed(es: seq<Event>, rid: int)
    requires
      var w := Run(NEW_WORKSPACE, es);
      rid in w.rotations && Unchanged(w.gateway, w.rotations[rid])
    ensures
      var w := Run(NEW_WORKSPACE, es + [Post(rid, false)]);
      rid in w.rotations && w.rotations[rid] == Run(NEW_WORKSPACE, es).rotations[rid].(confirmed := true)
  {
    RunSnoc(NEW_WORKSPACE, es, Post(rid, false));
    RunUsable(es);
    RunPast(es);
    TakesIs(Run(NEW_WORKSPACE, es), Run(NEW_WORKSPACE, es).rotations[rid]);
  }

  /**
   In every run, once a rotation is taken, every recipient of its snapshot can sync: with its own secret and its
   own associated data any device comes to hold the activated key, which is the rotation's.
   */
  lemma RecipientsCanSync(es: seq<Event>, rid: int, replyLost: bool, r: Recipient, d: Device)
    requires
      var w := Run(NEW_WORKSPACE, es);
      && rid in w.rotations && Unchanged(w.gateway, w.rotations[rid]) && r in w.rotations[rid].snapshot.recipients
    ensures
      var rotation := Run(NEW_WORKSPACE, es).rotations[rid];
      var v := rotation.snapshot.next;
      var sync := Sync(d, (r.kind, r.id), v, r.publicKey.secret, Aad(WORKSPACE, r.kind, r.id, v, r.binding));
      var w := Run(NEW_WORKSPACE, es + [Post(rid, replyLost)] + [sync]);
      v in w.activated && w.activated[v] == rotation.key && KeyHeld(w, d, v) == Some(rotation.key)
  {
    var w := Run(NEW_WORKSPACE, es);
    var rotation := w.rotations[rid];
    var v := rotation.snapshot.next;
    var sync := Sync(d, (r.kind, r.id), v, r.publicKey.secret, Aad(WORKSPACE, r.kind, r.id, v, r.binding));
    RunUsable(es);
    RunPast(es);
    TakesIs(w, rotation);
    TakenIsSealed(w, rid, replyLost, r);
    TakenExactlyWhen(es, Post(rid, replyLost));
    RunSnoc(NEW_WORKSPACE, es, Post(rid, replyLost));
    RunSnoc(NEW_WORKSPACE, es + [Post(rid, replyLost)], sync);
    var w1 := Run(NEW_WORKSPACE, es + [Post(rid, replyLost)]);
    StoreExactlyWhen(w1, sync, d, v);
    assert Puts(w1, sync, d, v, rotation.key);
  }

  /** A device rotates and saves, another syncs: both hold the new key. */
  lemma BothHoldTheKey(r: Recipient, a: Device, b: Device, k: Key)
    requires ValidRecipient(r)
    ensures
      var sync := Sync(b, (r.kind, r.id), 2, r.publicKey.secret, Aad(WORKSPACE, r.kind, r.id, 2, r.binding));
      var w := Run(NEW_WORKSPACE, RotatedRun(r, a, k) + [Save(1)] + [sync]);
      && w.gateway.version == 2 && 2 in w.activated && w.activated[2] == k
      && KeyHeld(w, a, 2) == Some(k) && KeyHeld(w, b, 2) == Some(k)
  {
    var sync := Sync(b, (r.kind, r.id), 2, r.publicKey.secret, Aad(WORKSPACE, r.kind, r.id, 2, r.binding));
    var es := [] + [SetRecipients([r])] + [Build(1, a, None, k)];
    BuiltWorld(r, a, k);
    OnlySnapshot(r);
    RunSnoc(NEW_WORKSPACE, es, Post(1, false));
    RunSnoc(NEW_WORKSPACE, RotatedRun(r, a, k), Save(1));
    RunSnoc(NEW_WORKSPACE, RotatedRun(r, a, k) + [Save(1)], sync);
    RunUsable(es);
    TakenIsSealed(Run(NEW_WORKSPACE, es), 1, false, r);
    TakenIsConfirmed(es, 1);
    var w := Run(NEW_WORKSPACE, RotatedRun(r, a, k));
    StoreExactlyWhen(w, Save(1), a, 2);
    assert Puts(w, Save(1), a, 2, k);
    var w1 := Run(NEW_WORKSPACE, RotatedRun(r, a, k) + [Save(1)]);
    assert w1.gateway == w.gateway;
    StoreExactlyWhen(w1, sync, b, 2);
    StoreExactlyWhen(w1, sync, a, 2);
    assert Puts(w1, sync, b, 2, k);
  }
}
