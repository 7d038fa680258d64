/**
 Workspace key envelopes: how a rotation builds one grant per recipient
 (rotate_workspace_key in src/vgen/cli/workspace_envelopes.py) and which keys open them.

 HPKE is symbolic: an envelope opens with the recipient's secret and the same associated data, and
 then yields the sealed key (section 5 of RFC 9180).  SHA-256 over canonical JSON is taken to be
 injective, so the digest of a recipient list is the list.
 */
module KeyGrants {
  import opened Common
  import opened Ordering

  type Key = seq<int>
  datatype PublicKey = Public(secret: string)

  datatype Aad = Aad(workspace: string, kind: string, id: string, version: int, binding: Option<string>)
  datatype Envelope = Sealed(recipient: PublicKey, key: Key, aad: Aad)

  function Open(secret: string, e: Envelope, aad: Aad): Option<Key> {
    if e.recipient == Public(secret) && e.aad == aad then Some(e.key) else None
  }

  type Pair = (string, string)

  /** A key recipient as the Gateway lists it; `binding` is None when its bundle does not verify. */
  datatype Recipient = Recipient(kind: string, id: string, publicKey: PublicKey, binding: Option<string>)

  function PairOf(r: Recipient): Pair {
    (r.kind, r.id)
  }

  datatype Grant = Grant(pair: Pair, version: int, envelope: Envelope)

  datatype Snapshot = Snapshot(current: int, next: int, recipients: seq<Recipient>, digest: seq<Recipient>)

  predicate KnownKind(kind: string) {
    kind == "user_recovery" || kind == "device" || kind == "service"
  }

  predicate ValidRecipient(r: Recipient) {
    KnownKind(r.kind) && r.id != "" && r.binding.Some?
  }

  predicate Precedes(a: Recipient, b: Recipient) {
    if a.kind == b.kind then LessEq(a.id, b.id) else LessEq(a.kind, b.kind)
  }

  ghost predicate InOrder(rs: seq<Recipient>) {
    forall i, j :: 0 <= i < j < |rs| ==> Precedes(rs[i], rs[j])
  }

  ghost predicate DistinctPairs(rs: seq<Recipient>) {
    forall i, j :: 0 <= i < j < |rs| ==> PairOf(rs[i]) != PairOf(rs[j])
  }

  /** The recipients in the order in which the client hashes them. */
  ghost predicate Ordered(rs: seq<Recipient>, sorted: seq<Recipient>) {
    InOrder(sorted) && multiset(sorted) == multiset(rs)
  }

  /** When a rotation goes ahead with a snapshot. */
  ghost predicate Usable(s: Snapshot, expected: Option<int>) {
    && (expected.Some? ==> s.current == expected.value)
    && s.next == s.current + 1
    && s.recipients != []
    && (forall i :: 0 <= i < |s.recipients| ==> ValidRecipient(s.recipients[i]))
    && DistinctPairs(s.recipients)
    && Ordered(s.recipients, s.digest)
  }

  function GrantFor(workspace: string, r: Recipient, version: int, key: Key): Grant {
    Grant(PairOf(r), version, Sealed(r.publicKey, key, Aad(workspace, r.kind, r.id, version, r.binding)))
  }

  function GrantsFor(workspace: string, rs: seq<Recipient>, version: int, key: Key): (gs: seq<Grant>)
    ensures |gs| == |rs| && forall i :: 0 <= i < |rs| ==> gs[i] == GrantFor(workspace, rs[i], version, key)
  {
    if rs == [] then []
    else GrantsFor(workspace, rs[..|rs| - 1], version, key) + [GrantFor(workspace, rs[|rs| - 1], version, key)]
  }

  // ----- order -----

  lemma PrecedesTotal(a: Recipient, b: Recipient)
    ensures Precedes(a, b) || Precedes(b, a)
  {
    Total(a.id, b.id);
    Total(a.kind, b.kind);
  }

  lemma PrecedesTransitive(a: Recipient, b: Recipient, c: Recipient)
    requires Precedes(a, b) && Precedes(b, c)
    ensures Precedes(a, c)
  {
    if a.kind == b.kind && b.kind == c.kind {
      Transitive(a.id, b.id, c.id);
    } else if a.kind == c.kind {
      Antisymmetric(a.kind, b.kind);
    } else if a.kind != b.kind && b.kind != c.kind {
      Transitive(a.kind, b.kind, c.kind);
    }
  }

  lemma SameFirst(a: seq<Recipient>, b: seq<Recipient>)
    requires InOrder(a) && InOrder(b) && multiset(a) == multiset(b) && DistinctPairs(a) && a != [] && b != []
    ensures a[0] == b[0]
  {
    assert b[0] in multiset(a) && a[0] in multiset(b);
    var i :| 0 <= i < |a| && a[i] == b[0];
    var j :| 0 <= j < |b| && b[j] == a[0];
    if i != 0 && j != 0 {
      SamePair(a[0], b[0]);
    }
  }

  /** Two orderings of one recipient list with distinct pairs are the same list. */
  lemma {:induction false} OrderedUnique(a: seq<Recipient>, b: seq<Recipient>)
    requires InOrder(a) && InOrder(b) && multiset(a) == multiset(b) && DistinctPairs(a)
    ensures a == b
    decreases |a|
  {
    assert |a| == |multiset(a)| == |multiset(b)| == |b|;
    if a != [] {
      SameFirst(a, b);
      assert a == [a[0]] + a[1..] && b == [a[0]] + b[1..];
      RestOf(a, b);
      OrderedUnique(a[1..], b[1..]);
    }
  }

  lemma RestOf(a: seq<Recipient>, b: seq<Recipient>)
    requires a != [] && b != [] && a[0] == b[0] && multiset(a) == multiset(b)
    ensures multiset(a[1..]) == multiset(b[1..])
  {
    assert a == [a[0]] + a[1..] && b == [a[0]] + b[1..];
    assert multiset(a[1..]) == multiset(a) - multiset{a[0]};
    assert multiset(b[1..]) == multiset(b) - multiset{a[0]};
  }

  lemma SamePair(a: Recipient, b: Recipient)
    requires Precedes(a, b) && Precedes(b, a)
    ensures PairOf(a) == PairOf(b)
  {
    if a.kind == b.kind {
      Antisymmetric(a.id, b.id);
    } else {
      Antisymmetric(a.kind, b.kind);
    }
  }

  // ----- building the grants -----

  /** recipients.sort(...), by insertion. */
  method SortRecipients(rs: seq<Recipient>) returns (sorted: seq<Recipient>)
    ensures Ordered(rs, sorted)
  {
    sorted := [];
    for k := 0 to |rs|
      invariant InOrder(sorted) && multiset(sorted) == multiset(rs[..k])
    {
      assert rs[..k + 1] == rs[..k] + [rs[k]];
      sorted := Insert(sorted, rs[k]);
    }
    assert rs[..|rs|] == rs;
  }

  method Insert(rs: seq<Recipient>, r: Recipient) returns (out: seq<Recipient>)
    requires InOrder(rs)
    ensures InOrder(out) && multiset(out) == multiset(rs) + multiset{r}
  {
    var k := 0;
    while k < |rs| && Precedes(rs[k], r)
      invariant 0 <= k <= |rs|
      invariant forall i :: 0 <= i < k ==> Precedes(rs[i], r)
    {
      k := k + 1;
    }
    out := rs[..k] + [r] + rs[k..];
    assert rs == rs[..k] + rs[k..];
    forall i, j | 0 <= i < j < |out|
      ensures Precedes(out[i], out[j])
    {
      if i == k {
        PrecedesTotal(r, rs[k]);
        if j > k + 1 {
          PrecedesTransitive(r, rs[k], rs[j - 1]);
        }
      }
    }
  }

  /**
   rotate_workspace_key up to its request: None is a refused snapshot, otherwise one signed grant
   for every recipient.
   */
  method BuildGrants(workspace: string, s: Snapshot, expected: Option<int>, key: Key) returns (gs: Option<seq<Grant>>)
    ensures gs.Some? <==> Usable(s, expected)
    ensures gs.Some? ==> gs.value == GrantsFor(workspace, s.digest, s.next, key)
  {
    if expected.Some? && s.current != expected.value {
      return None;
    }
    if s.next != s.current + 1 || s.recipients == [] {
      return None;
    }
    var valid := CheckRecipients(s.recipients);
    if !valid {
      return None;
    }
    var sorted := SortRecipients(s.recipients);
    if Ordered(s.recipients, s.digest) {
      DistinctPermuted(s.recipients, sorted);
      OrderedUnique(sorted, s.digest);
    }
    if sorted != s.digest {
      return None;
    }
    var grants := [];
    for k := 0 to |sorted|
      invariant grants == GrantsFor(workspace, sorted[..k], s.next, key)
    {
      assert sorted[..k + 1][..k] == sorted[..k];
      grants := grants + [GrantFor(workspace, sorted[k], s.next, key)];
    }
    assert sorted[..|sorted|] == sorted;
    return Some(grants);
  }

  /** The loop over the snapshot's recipients: all valid, and no two for one pair. */
  method CheckRecipients(rs: seq<Recipient>) returns (ok: bool)
    ensures ok <==> (forall i :: 0 <= i < |rs| ==> ValidRecipient(rs[i])) && DistinctPairs(rs)
  {
    var pairs: set<Pair> := {};
    for k := 0 to |rs|
      invariant forall i :: 0 <= i < k ==> ValidRecipient(rs[i])
      invariant forall i, j :: 0 <= i < j < k ==> PairOf(rs[i]) != PairOf(rs[j])
      invariant forall p :: p in pairs <==> exists i :: 0 <= i < k && PairOf(rs[i]) == p
    {
      var r := rs[k];
      if !KnownKind(r.kind) || r.id == "" || PairOf(r) in pairs || r.binding.None? {
        return false;
      }
      pairs := pairs + {PairOf(r)};
    }
    return true;
  }

  lemma DistinctPermuted(a: seq<Recipient>, b: seq<Recipient>)
    requires DistinctPairs(a) && multiset(a) == multiset(b)
    ensures DistinctPairs(b)
  {
    forall i, j | 0 <= i < j < |b|
      ensures PairOf(b[i]) != PairOf(b[j])
    {
      assert b[i] in multiset(a) && b[j] in multiset(a);
      if b[i] == b[j] {
        TwiceIn(b, i, j);
        OnceIn(a, b[i]);
      }
    }
  }

  lemma TwiceIn(s: seq<Recipient>, i: nat, j: nat)
    requires i < j < |s| && s[i] == s[j]
    ensures multiset(s)[s[i]] >= 2
  {
    assert s == s[..i] + [s[i]] + s[i + 1..j] + [s[j]] + s[j + 1..];
  }

  lemma {:induction false} OnceIn(s: seq<Recipient>, r: Recipient)
    requires DistinctPairs(s)
    ensures multiset(s)[r] <= 1
  {
    if s != [] {
      var n := |s| - 1;
      OnceIn(s[..n], r);
      assert s == s[..n] + [s[n]];
      if s[n] == r {
        assert r !in s[..n];
      }
    }
  }

  /** The grants of a rotation are in bijection with the recipients of its snapshot. */
  lemma GrantsMatchRecipients(workspace: string, s: Snapshot, expected: Option<int>, key: Key)
    requires Usable(s, expected)
    ensures
      var gs := GrantsFor(workspace, s.digest, s.next, key);
      && |gs| == |s.recipients|
      && (forall i, j :: 0 <= i < j < |gs| ==> gs[i].pair != gs[j].pair)
      && (forall r :: r in s.recipients <==> r in s.digest)
      && (forall r :: r in s.recipients ==> GrantFor(workspace, r, s.next, key) in gs)
      && (forall g :: g in gs ==> exists r :: r in s.recipients && g == GrantFor(workspace, r, s.next, key))
  {
    var gs := GrantsFor(workspace, s.digest, s.next, key);
    DistinctPermuted(s.recipients, s.digest);
    assert |s.digest| == |multiset(s.digest)| == |s.recipients|;
    forall r
      ensures r in s.recipients <==> r in s.digest
    {
      assert r in multiset(s.recipients) <==> r in multiset(s.digest);
    }
    forall r | r in s.recipients
      ensures GrantFor(workspace, r, s.next, key) in gs
    {
      var i :| 0 <= i < |s.digest| && s.digest[i] == r;
      assert gs[i] == GrantFor(workspace, r, s.next, key);
    }
    forall g | g in gs
      ensures exists r :: r in s.recipients && g == GrantFor(workspace, r, s.next, key)
    {
      var i :| 0 <= i < |gs| && gs[i] == g;
      assert s.digest[i] in s.recipients;
    }
  }

  /**
   A grant opens for exactly one secret and one associated data: the recipient's own, with the binding.  So a
   Service, which leaves out the binding, never opens one.
   */
  lemma WhoOpensAGrant(workspace: string, r: Recipient, version: int, key: Key, secret: string, aad: Aad)
    requires ValidRecipient(r)
    ensures
      var e := GrantFor(workspace, r, version, key).envelope;
      && (Open(secret, e, aad).Some? <==>
           secret == r.publicKey.secret && aad == Aad(workspace, r.kind, r.id, version, r.binding))
      && (Open(secret, e, aad).Some? ==> Open(secret, e, aad).value == key && aad.binding.Some?)
  {
    assert r.publicKey == Public(secret) <==> secret == r.publicKey.secret;
  }
}
