/**
 The device-local cache of Workspace Data Keys (src/vgen/cli/workspace_keys.py): one keyring account
 per Workspace and version, named "<workspace>:v<version>".
 */
module KeyStore {
  import opened Common

  type Bytes = seq<int>

  const KEY_LENGTH := 32

  function Digit(d: nat): char
    requires d < 10
  {
    '0' + d as char
  }

  predicate IsDigit(c: char) {
    '0' <= c <= '9'
  }

  function Decimal(n: nat): (s: string)
    ensures s != []
  {
    if n < 10 then [Digit(n)] else Decimal(n / 10) + [Digit(n % 10)]
  }

  lemma {:induction false} DecimalDigits(n: nat)
    ensures forall i :: 0 <= i < |Decimal(n)| ==> IsDigit(Decimal(n)[i])
  {
    if n >= 10 {
      DecimalDigits(n / 10);
    }
  }

  lemma {:induction false} DecimalInjective(m: nat, n: nat)
    requires Decimal(m) == Decimal(n)
    ensures m == n
    decreases m
  {
    var a, b := Decimal(m), Decimal(n);
    if m >= 10 && n >= 10 {
      assert a[..|a| - 1] == Decimal(m / 10) && b[..|b| - 1] == Decimal(n / 10);
      DecimalInjective(m / 10, n / 10);
      assert a[|a| - 1] == Digit(m % 10) && b[|b| - 1] == Digit(n % 10);
    }
  }

  function Account(workspace: string, version: nat): string {
    workspace + ":v" + Decimal(version)
  }

  /** Whatever characters Workspace ids contain, two Workspaces or versions never share an account. */
  lemma AccountInjective(w: string, m: nat, w': string, n: nat)
    requires Account(w, m) == Account(w', n)
    ensures w == w' && m == n
  {
    var a, dm, dn := Account(w, m), Decimal(m), Decimal(n);
    DecimalDigits(m);
    DecimalDigits(n);
    assert a[|w| + 1] == 'v' && a[|w'| + 1] == 'v';
    assert forall i :: |w| + 2 <= i < |a| ==> a[i] == dm[i - |w| - 2];
    assert forall i :: |w'| + 2 <= i < |a| ==> a[i] == dn[i - |w'| - 2];
    assert |w| == |w'|;
    assert a[..|w|] == w && a[..|w'|] == w';
    assert a[|w| + 2..] == dm && a[|w'| + 2..] == dn;
    DecimalInjective(m, n);
  }

  predicate Nameable(workspace: string, version: int) {
    workspace != "" && version >= 1
  }

  class WorkspaceKeyStore {
    var entries: map<string, Bytes>

    /** The key cached for a Workspace and version. */
    ghost function Cached(workspace: string, version: nat): Option<Bytes>
      reads this
    {
      if Account(workspace, version) in entries then Some(entries[Account(workspace, version)]) else None
    }

    constructor ()
      ensures entries == map[]
    {
      entries := map[];
    }

    method Save(workspace: string, version: int, key: Bytes) returns (ok: bool)
      modifies this
      ensures ok <==> |key| == 32 && workspace != "" && version >= 1
      ensures !ok ==> entries == old(entries)
      ensures ok ==> forall w, v: nat ::
        Cached(w, v) == if w == workspace && v == version then Some(key) else old(Cached(w, v))
    {
      if |key| != KEY_LENGTH || !Nameable(workspace, version) {
        return false;
      }
      entries := entries[Account(workspace, version) := key];
      forall w, v: nat | Account(w, v) == Account(workspace, version)
        ensures w == workspace && v == version
      {
        AccountInjective(w, v, workspace, version);
      }
      return true;
    }

    method Load(workspace: string, version: int) returns (key: Option<Bytes>)
      ensures key == if workspace != "" && version >= 1 && Cached(workspace, version).Some?
                        && |Cached(workspace, version).value| == 32
                     then Cached(workspace, version) else None
    {
      if !Nameable(workspace, version) || Account(workspace, version) !in entries {
        return None;
      }
      key := Some(entries[Account(workspace, version)]);
      if |key.value| != KEY_LENGTH {
        key := None;
      }
    }

    method Delete(workspace: string, version: int)
      modifies this
      ensures !Nameable(workspace, version) ==> entries == old(entries)
      ensures Nameable(workspace, version) ==> forall w, v: nat ::
        Cached(w, v) == if w == workspace && v == version then None else old(Cached(w, v))
    {
      if Nameable(workspace, version) {
        entries := entries - {Account(workspace, version)};
        forall w, v: nat | Account(w, v) == Account(workspace, version)
          ensures w == workspace && v == version
        {
          AccountInjective(w, v, workspace, version);
        }
      }
    }
  }
}
