/**
 Write-once trust anchors (WorkspaceAuthorityStore in src/vgen/cli/workspace_authorities.py).

 The keyring is a map from service and account to a stored pin.  The account of a user pin is
 "<workspace>:<user>", so two pairs whose ids contain ':' can share one account; the stored pin
 itself records which pair it belongs to.  Key ids are derived from keys by a function of the
 environment, and a stored value is a pin (or damaged text written by someone else).
 */
module Authorities {
  import opened Common

  datatype Pin = Pin(workspace: string, user: string, key: string, keyId: string, source: string)

  datatype Stored = Text(pin: Pin) | Damaged

  /** vgen.workspace-authority.v1 and vgen.workspace-owner-authority.v1. */
  datatype Keyring = Keyring(users: map<string, Stored>, owners: map<string, Stored>)

  /** Which texts are 32-byte root keys, and the id derived from one. */
  datatype Crypto = Crypto(isKey: string -> bool, keyId: string -> string)

  datatype Result<+T> = Ok(value: T) | Error

  function Account(workspace: string, user: string): string {
    workspace + ":" + user
  }

  /** load: no pin, the pin of exactly this pair, or an error. */
  function Load(c: Crypto, k: Keyring, workspace: string, user: string): Result<Option<Pin>> {
    if workspace == "" || user == "" then Error
    else if Account(workspace, user) !in k.users then Ok(None)
    else
      match k.users[Account(workspace, user)]
      case Damaged => Error
      case Text(p) =>
        if c.isKey(p.key) && p.workspace == workspace && p.user == user && c.keyId(p.key) == p.keyId
        then Ok(Some(p)) else Error
  }

  function LoadOwner(c: Crypto, k: Keyring, workspace: string): Result<Option<Pin>> {
    if workspace !in k.owners then Ok(None)
    else
      match k.owners[workspace]
      case Damaged => Error
      case Text(p) =>
        if c.isKey(p.key) && p.workspace == workspace && c.keyId(p.key) == p.keyId then Ok(Some(p)) else Error
  }

  /** The arguments of pin and pin_owner. */
  datatype Claim = Claim(workspace: string, user: string, key: string, keyId: Option<string>, source: string)

  predicate KeyAccepted(c: Crypto, a: Claim) {
    c.isKey(a.key) && (a.keyId.Some? ==> a.keyId.value == c.keyId(a.key))
  }

  function PinOf(c: Crypto, a: Claim): Pin {
    Pin(a.workspace, a.user, a.key, c.keyId(a.key), a.source)
  }

  predicate SameKey(c: Crypto, p: Pin, a: Claim) {
    p.key == a.key && p.keyId == c.keyId(a.key)
  }

  /** pin: the keyring afterwards and the answer. */
  function PinUser(c: Crypto, k: Keyring, a: Claim): (Keyring, Result<Pin>) {
    if !KeyAccepted(c, a) then (k, Error)
    else
      var existing := Load(c, k, a.workspace, a.user);
      if existing.Error? then (k, Error)
      else if existing.value.Some? then
        (k, if SameKey(c, existing.value.value, a) then Ok(existing.value.value) else Error)
      else (k.(users := k.users[Account(a.workspace, a.user) := Text(PinOf(c, a))]), Ok(PinOf(c, a)))
  }

  /** The first write of pin_owner, made only when no owner is pinned. */
  function WriteOwner(c: Crypto, k: Keyring, a: Claim): Keyring {
    k.(owners := k.owners[a.workspace := Text(PinOf(c, a))])
  }

  /** pin_owner: a known owner is only compared; a new one is written, then pinned as a user as well. */
  function PinOwner(c: Crypto, k: Keyring, a: Claim): (Keyring, Result<Pin>) {
    if !KeyAccepted(c, a) then (k, Error)
    else
      var existing := LoadOwner(c, k, a.workspace);
      if existing.Error? then (k, Error)
      else if existing.value.Some? then
        (k, if existing.value.value.user == a.user && SameKey(c, existing.value.value, a)
            then Ok(existing.value.value) else Error)
      else
        var (k', second) := PinUser(c, WriteOwner(c, k, a), a.(keyId := Some(c.keyId(a.key))));
        (k', if second.Error? then Error else Ok(PinOf(c, a)))
  }

  datatype Event =
    | CallPin(claim: Claim)
    | CallPinOwner(claim: Claim)
    | DieInPinOwner(claim: Claim)

  /** DieInPinOwner: the process is killed between the two writes. */
  function Next(c: Crypto, k: Keyring, e: Event): Keyring {
    match e
    case CallPin(a) => PinUser(c, k, a).0
    case CallPinOwner(a) => PinOwner(c, k, a).0
    case DieInPinOwner(a) =>
      if KeyAccepted(c, a) && LoadOwner(c, k, a.workspace) == Ok(None) then WriteOwner(c, k, a) else k
  }

  function Run(c: Crypto, k: Keyring, es: seq<Event>): Keyring {
    if es == [] then k else Next(c, Run(c, k, es[..|es| - 1]), es[|es| - 1])
  }

  // ----- when a pin succeeds -----

  /** The stored text is a pin of this pair, with a key that is one and has the recorded id. */
  predicate Intact(c: Crypto, s: Stored, workspace: string, user: string) {
    && s.Text? && c.isKey(s.pin.key) && c.keyId(s.pin.key) == s.pin.keyId
    && s.pin.workspace == workspace && s.pin.user == user
  }

  predicate IntactOwner(c: Crypto, s: Stored, workspace: string) {
    s.Text? && c.isKey(s.pin.key) && s.pin.workspace == workspace && c.keyId(s.pin.key) == s.pin.keyId
  }

  /** The claimed key is one, and its id, if claimed, is right. */
  predicate GoodKey(c: Crypto, a: Claim) {
    c.isKey(a.key) && (a.keyId == None || a.keyId == Some(c.keyId(a.key)))
  }

  /** Nothing is stored for the claim's pair, or an intact pin on the same key. */
  predicate NoConflict(c: Crypto, k: Keyring, a: Claim) {
    var account := a.workspace + ":" + a.user;
    && a.workspace != "" && a.user != ""
    && (account in k.users ==> Intact(c, k.users[account], a.workspace, a.user) && k.users[account].pin.key == a.key)
  }

  function FreshPin(c: Crypto, a: Claim): Pin {
    Pin(a.workspace, a.user, a.key, c.keyId(a.key), a.source)
  }

  /** load answers nothing, an error, or the stored pin, exactly by what is stored for the pair. */
  lemma LoadsExactlyWhen(c: Crypto, k: Keyring, workspace: string, user: string)
    ensures
      var account := workspace + ":" + user;
      Load(c, k, workspace, user) ==
        if workspace == "" || user == "" then Error
        else if account !in k.users then Ok(None)
        else if Intact(c, k.users[account], workspace, user) then Ok(Some(k.users[account].pin)) else Error
  {
  }

  /**
   pin succeeds exactly with a good key that conflicts with nothing stored; it then answers the stored pin, which
   is the claim's own when there was none, and otherwise changes nothing.
   */
  lemma PinsExactlyWhen(c: Crypto, k: Keyring, a: Claim)
    ensures
      var account, r := a.workspace + ":" + a.user, PinUser(c, k, a).1;
      && (r.Ok? <==> GoodKey(c, a) && NoConflict(c, k, a))
      && (r.Ok? ==> r.value == if account in k.users then k.users[account].pin else FreshPin(c, a))
      && PinUser(c, k, a).0 == if r.Ok? then k.(users := k.users[account := Text(r.value)]) else k
  {
    LoadsExactlyWhen(c, k, a.workspace, a.user);
    var account, r := a.workspace + ":" + a.user, PinUser(c, k, a).1;
    if r.Ok? && account in k.users {
      assert k.users[account := Text(r.value)] == k.users;
    }
  }

  /**
   pin_owner for a Workspace with an owner compares the two and changes nothing; for one without it writes the owner
   once the key is good, and then succeeds exactly when the user's own pin does.
   */
  lemma PinsOwnerExactlyWhen(c: Crypto, k: Keyring, a: Claim)
    ensures a.workspace in k.owners ==>
      var owner := k.owners[a.workspace];
      PinOwner(c, k, a) == (k,
        if GoodKey(c, a) && IntactOwner(c, owner, a.workspace) && owner.pin.user == a.user && owner.pin.key == a.key
        then Ok(owner.pin) else Error)
    ensures a.workspace !in k.owners ==>
      var written := k.(owners := k.owners[a.workspace := Text(FreshPin(c, a))]);
      PinOwner(c, k, a) ==
        if !GoodKey(c, a) then (k, Error)
        else if NoConflict(c, k, a) then (PinUser(c, written, a).0, Ok(FreshPin(c, a)))
        else (written, Error)
  {
    if a.workspace !in k.owners {
      var b := a.(keyId := Some(c.keyId(a.key)));
      var written := k.(owners := k.owners[a.workspace := Text(FreshPin(c, a))]);
      PinsExactlyWhen(c, written, b);
      PinsExactlyWhen(c, written, a);
    }
  }

  // ----- what every sequence of calls keeps -----

  /** Entries are only added, never replaced or removed. */
  ghost predicate Extends(k: Keyring, k': Keyring) {
    && (forall a :: a in k.users ==> a in k'.users && k'.users[a] == k.users[a])
    && (forall a :: a in k.owners ==> a in k'.owners && k'.owners[a] == k.owners[a])
  }

  lemma {:induction false} WriteOnce(c: Crypto, k: Keyring, es: seq<Event>)
    ensures Extends(k, Run(c, k, es))
  {
    if es != [] {
      WriteOnce(c, k, es[..|es| - 1]);
      StepExtends(c, Run(c, k, es[..|es| - 1]), es[|es| - 1]);
    }
  }

  lemma StepExtends(c: Crypto, k: Keyring, e: Event)
    ensures Extends(k, Next(c, k, e))
  {
  }

  /** load never returns another pair's pin, whatever the keyring holds. */
  lemma LoadIsExact(c: Crypto, k: Keyring, workspace: string, user: string, p: Pin)
    requires Load(c, k, workspace, user) == Ok(Some(p))
    ensures p.workspace == workspace && p.user == user && c.keyId(p.key) == p.keyId
  {
  }

  /** Pairs with ':' in their ids can share an account; the second one then cannot be pinned or loaded. */
  lemma SharedAccountsAreRefused(c: Crypto, k: Keyring, a: Claim, b: Claim)
    requires PinUser(c, k, a).1.Ok? && Account(a.workspace, a.user) == Account(b.workspace, b.user)
    requires (a.workspace, a.user) != (b.workspace, b.user)
    ensures var k' := PinUser(c, k, a).0;
      && Load(c, k', b.workspace, b.user).Error?
      && PinUser(c, k', b) == (k', Error)
  {
  }

  lemma AccountsCollide()
    ensures Account("a:b", "c") == Account("a", "b:c")
  {
    assert Account("a:b", "c") == "a:b:c" && Account("a", "b:c") == "a:b:c";
  }

  // ----- provenance -----

  /** Every stored pin was the claim of one of the calls. */
  ghost predicate Claimed(c: Crypto, p: Pin, es: seq<Event>) {
    exists i :: 0 <= i < |es| && p == PinOf(c, es[i].claim)
  }

  /** Every entry of the later keyring was in the earlier one, or is the claim of one of the calls. */
  ghost predicate FromCalls(c: Crypto, k: Keyring, k': Keyring, es: seq<Event>) {
    && (forall a :: a in k'.users ==>
         (a in k.users && k'.users[a] == k.users[a]) || (k'.users[a].Text? && Claimed(c, k'.users[a].pin, es)))
    && (forall a :: a in k'.owners ==>
         (a in k.owners && k'.owners[a] == k.owners[a]) || (k'.owners[a].Text? && Claimed(c, k'.owners[a].pin, es)))
  }

  lemma {:induction false} PinsComeFromCalls(c: Crypto, k: Keyring, es: seq<Event>)
    ensures FromCalls(c, k, Run(c, k, es), es)
  {
    if es != [] {
      var n := |es| - 1;
      PinsComeFromCalls(c, k, es[..n]);
      forall p | Claimed(c, p, es[..n])
        ensures Claimed(c, p, es)
      {
        var i :| 0 <= i < n && p == PinOf(c, es[..n][i].claim);
        assert p == PinOf(c, es[i].claim);
      }
      assert Claimed(c, PinOf(c, es[n].claim), es);
      StepAdds(c, Run(c, k, es[..n]), es[n]);
    }
  }

  lemma StepAdds(c: Crypto, k: Keyring, e: Event)
    ensures forall a :: a in Next(c, k, e).users ==>
      (a in k.users && Next(c, k, e).users[a] == k.users[a]) || Next(c, k, e).users[a] == Text(PinOf(c, e.claim))
    ensures forall a :: a in Next(c, k, e).owners ==>
      (a in k.owners && Next(c, k, e).owners[a] == k.owners[a]) || Next(c, k, e).owners[a] == Text(PinOf(c, e.claim))
  {
  }

  // ----- the owner pin -----

  /** Owner and user pins of the claim are both on its key. */
  ghost predicate Agrees(c: Crypto, k: Keyring, a: Claim) {
    && LoadOwner(c, k, a.workspace).Ok? && LoadOwner(c, k, a.workspace).value.Some?
    && LoadOwner(c, k, a.workspace).value.value.key == a.key && LoadOwner(c, k, a.workspace).value.value.user == a.user
    && UserPinnedTo(c, k, a)
  }

  ghost predicate UserPinnedTo(c: Crypto, k: Keyring, a: Claim) {
    && Load(c, k, a.workspace, a.user).Ok? && Load(c, k, a.workspace, a.user).value.Some?
    && Load(c, k, a.workspace, a.user).value.value.key == a.key
  }

  /** A successful pin_owner leaves both pins on the same key exactly when it was the first, or the user already was. */
  lemma OwnerAgreementExactlyWhen(c: Crypto, k: Keyring, a: Claim)
    requires PinOwner(c, k, a).1.Ok?
    ensures Agrees(c, PinOwner(c, k, a).0, a) <==>
      LoadOwner(c, k, a.workspace) == Ok(None) || UserPinnedTo(c, k, a)
  {
    if LoadOwner(c, k, a.workspace) == Ok(None) {
      FirstOwnerAgrees(c, k, a);
    }
  }

  lemma FirstOwnerAgrees(c: Crypto, k: Keyring, a: Claim)
    requires PinOwner(c, k, a).1.Ok? && LoadOwner(c, k, a.workspace) == Ok(None)
    ensures Agrees(c, PinOwner(c, k, a).0, a)
  {
    var k1 := WriteOwner(c, k, a);
    var b := a.(keyId := Some(c.keyId(a.key)));
    assert PinUser(c, k1, b).1.Ok?;
    assert PinUser(c, k1, b).0.owners == k1.owners;
  }

  /** After a first successful pin_owner no sequence of calls separates the two pins again. */
  lemma OwnerAgreementLasts(c: Crypto, k: Keyring, a: Claim, es: seq<Event>)
    requires PinOwner(c, k, a).1.Ok? && LoadOwner(c, k, a.workspace) == Ok(None)
    ensures Agrees(c, Run(c, PinOwner(c, k, a).0, es), a)
  {
    FirstOwnerAgrees(c, k, a);
    WriteOnce(c, PinOwner(c, k, a).0, es);
  }

  /** A user pinned to another key makes pin_owner fail once and then succeed with the pins apart. */
  lemma RepeatedPinOwnerDisagrees(c: Crypto, k: Keyring, a: Claim)
    requires KeyAccepted(c, a) && LoadOwner(c, k, a.workspace) == Ok(None)
    requires
      var user := Load(c, k, a.workspace, a.user);
      user.Ok? && user.value.Some? && user.value.value.key != a.key
    ensures
      var k1 := PinOwner(c, k, a).0;
      && PinOwner(c, k, a).1.Error?
      && PinOwner(c, k1, a).1.Ok?
      && !Agrees(c, PinOwner(c, k1, a).0, a)
  {
  }

  // ----- the store object -----

  /** What load and load_owner may answer with: a pin that was there at first or that some call claimed. */
  ghost predicate Known(c: Crypto, k: Keyring, p: Pin, es: seq<Event>) {
    || Claimed(c, p, es)
    || (exists a :: a in k.users && k.users[a] == Text(p))
    || (exists a :: a in k.owners && k.owners[a] == Text(p))
  }

  lemma LoadedIsKnown(c: Crypto, k: Keyring, es: seq<Event>, workspace: string, user: string, p: Pin)
    requires Load(c, Run(c, k, es), workspace, user) == Ok(Some(p))
    ensures Known(c, k, p, es)
  {
    PinsComeFromCalls(c, k, es);
    assert Account(workspace, user) in Run(c, k, es).users;
  }

  lemma LoadedOwnerIsKnown(c: Crypto, k: Keyring, es: seq<Event>, workspace: string, p: Pin)
    requires LoadOwner(c, Run(c, k, es), workspace) == Ok(Some(p))
    ensures Known(c, k, p, es)
  {
    PinsComeFromCalls(c, k, es);
    assert workspace in Run(c, k, es).owners;
  }

  lemma RunSnoc(c: Crypto, k: Keyring, es: seq<Event>, e: Event)
    ensures Run(c, k, es + [e]) == Next(c, Run(c, k, es), e)
  {
    assert (es + [e])[..|es|] == es;
  }

  /** A store on a keyring; `Valid` ties what it holds to the calls made on it so far. */
  class WorkspaceAuthorityStore {
    const crypto: Crypto
    var users: map<string, Stored>
    var owners: map<string, Stored>
    ghost const initial: Keyring
    ghost var trace: seq<Event>

    ghost function View(): Keyring
      reads this
    {
      Keyring(users, owners)
    }

    ghost predicate Valid()
      reads this
    {
      View() == Run(crypto, initial, trace)
    }

    constructor (crypto: Crypto, k: Keyring)
      ensures this.crypto == crypto && initial == View() == k && trace == [] && Valid()
    {
      this.crypto, initial, trace := crypto, k, [];
      users, owners := k.users, k.owners;
    }

    /** load: only ever the pin of exactly this pair, and one that was there at first or that a call claimed. */
    method LoadPin(workspace: string, user: string) returns (r: Result<Option<Pin>>)
      requires Valid()
      ensures r == Load(crypto, View(), workspace, user)
      ensures r.Ok? && r.value.Some? ==>
        && r.value.value.workspace == workspace && r.value.value.user == user
        && Known(crypto, initial, r.value.value, trace)
    {
      r := ReadPin(workspace, user);
      if r.Ok? && r.value.Some? {
        LoadedIsKnown(crypto, initial, trace, workspace, user, r.value.value);
      }
    }

    method ReadPin(workspace: string, user: string) returns (r: Result<Option<Pin>>)
      ensures r == Load(crypto, View(), workspace, user)
    {
      if workspace == "" || user == "" {
        return Error;
      }
      var account := workspace + ":" + user;
      if account !in users {
        return Ok(None);
      }
      var stored := users[account];
      if stored.Damaged? || !crypto.isKey(stored.pin.key) {
        return Error;
      }
      var pin := stored.pin;
      if pin.workspace != workspace || pin.user != user || crypto.keyId(pin.key) != pin.keyId {
        return Error;
      }
      return Ok(Some(stored.pin));
    }

    /** load_owner: only ever a pin of this Workspace, and one that was there at first or that a call claimed. */
    method LoadOwnerPin(workspace: string) returns (r: Result<Option<Pin>>)
      requires Valid()
      ensures r == LoadOwner(crypto, View(), workspace)
      ensures r.Ok? && r.value.Some? ==>
        r.value.value.workspace == workspace && Known(crypto, initial, r.value.value, trace)
    {
      if workspace !in owners {
        return Ok(None);
      }
      var stored := owners[workspace];
      if stored.Damaged? || !crypto.isKey(stored.pin.key) {
        return Error;
      }
      if stored.pin.workspace != workspace || crypto.keyId(stored.pin.key) != stored.pin.keyId {
        return Error;
      }
      r := Ok(Some(stored.pin));
      LoadedOwnerIsKnown(crypto, initial, trace, workspace, stored.pin);
    }

    /** pin: nothing stored is replaced, and what it answers is what load answers from then on. */
    method SetPin(a: Claim) returns (r: Result<Pin>)
      requires Valid()
      modifies this
      ensures Valid() && trace == old(trace) + [CallPin(a)] && Extends(old(View()), View())
      ensures r.Ok? ==> r.value.key == a.key && Load(crypto, View(), a.workspace, a.user) == Ok(Some(r.value))
      ensures r.Ok? <==> GoodKey(crypto, a) && NoConflict(crypto, old(View()), a)
      ensures r.Ok? && a.workspace + ":" + a.user !in old(users) ==> r.value == FreshPin(crypto, a)
      ensures r.Error? ==> View() == old(View())
    {
      PinsExactlyWhen(crypto, View(), a);
      r := WritePin(a);
      RunSnoc(crypto, initial, trace, CallPin(a));
      trace := trace + [CallPin(a)];
    }

    method WritePin(a: Claim) returns (r: Result<Pin>)
      modifies this`users
      ensures (View(), r) == PinUser(crypto, old(View()), a)
    {
      if !KeyAccepted(crypto, a) {
        return Error;
      }
      var existing := ReadPin(a.workspace, a.user);
      if existing.Error? {
        return Error;
      }
      if existing.value.Some? {
        return if SameKey(crypto, existing.value.value, a) then Ok(existing.value.value) else Error;
      }
      users := users[a.workspace + ":" + a.user := Text(PinOf(crypto, a))];
      return Ok(PinOf(crypto, a));
    }

    /**
     pin_owner: nothing stored is replaced, and what it answers is what load_owner answers from then on; when
     it is the first to pin an owner, the user's own pin is on the same key.
     */
    method SetOwnerPin(a: Claim) returns (r: Result<Pin>)
      requires Valid()
      modifies this
      ensures Valid() && trace == old(trace) + [CallPinOwner(a)] && Extends(old(View()), View())
      ensures r.Ok? ==> r.value.key == a.key && LoadOwner(crypto, View(), a.workspace) == Ok(Some(r.value))
      ensures r.Ok? && LoadOwner(crypto, old(View()), a.workspace) == Ok(None) ==> Agrees(crypto, View(), a)
      ensures a.workspace !in old(owners) ==>
        && (r.Ok? <==> GoodKey(crypto, a) && NoConflict(crypto, old(View()), a))
        && (GoodKey(crypto, a) ==> owners == old(owners)[a.workspace := Text(FreshPin(crypto, a))])
      ensures a.workspace in old(owners) ==>
        var owner := old(owners)[a.workspace];
        && View() == old(View())
        && (r.Ok? <==>
             && GoodKey(crypto, a) && IntactOwner(crypto, owner, a.workspace)
             && owner.pin.user == a.user && owner.pin.key == a.key)
    {
      PinsOwnerExactlyWhen(crypto, View(), a);
      PinsExactlyWhen(crypto, View().(owners := owners[a.workspace := Text(FreshPin(crypto, a))]), a);
      ghost var k := View();
      r := WriteOwnerPin(a);
      RunSnoc(crypto, initial, trace, CallPinOwner(a));
      trace := trace + [CallPinOwner(a)];
      StepExtends(crypto, k, CallPinOwner(a));
      if r.Ok? && LoadOwner(crypto, k, a.workspace) == Ok(None) {
        FirstOwnerAgrees(crypto, k, a);
      }
    }

    method WriteOwnerPin(a: Claim) returns (r: Result<Pin>)
      requires Valid()
      modifies this`users, this`owners
      ensures (View(), r) == PinOwner(crypto, old(View()), a)
    {
      if !KeyAccepted(crypto, a) {
        return Error;
      }
      var existing := LoadOwnerPin(a.workspace);
      if existing.Error? {
        return Error;
      }
      if existing.value.Some? {
        var owner := existing.value.value;
        return if owner.user == a.user && SameKey(crypto, owner, a) then Ok(owner) else Error;
      }
      owners := owners[a.workspace := Text(PinOf(crypto, a))];
      var second := WritePin(a.(keyId := Some(crypto.keyId(a.key))));
      return if second.Error? then Error else Ok(PinOf(crypto, a));
    }
  }
}
