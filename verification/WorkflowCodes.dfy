/**
 Short codes for workflow ids: src/vgen/cli/workflow_catalog.py, and the expansion and listing of them in
 src/vgen/cli/main.py.

 Which id components are portable file names and which versions are valid are parameters.
 */
module WorkflowCodes {
  import opened Common
  import opened Ordering

  datatype Rules = Rules(portable: string -> bool, version: string -> bool)

  /** A validated catalog row. */
  datatype Entry = Entry(id: string, code: string, version: string)

  predicate Alnum(c: char) {
    'a' <= c <= 'z' || '0' <= c <= '9'
  }

  predicate IsPart(s: string) {
    s != "" && Alnum(s[0]) && forall i :: 0 <= i < |s| ==> Alnum(s[i]) || s[i] == '.' || s[i] == '_' || s[i] == '-'
  }

  const MAX_CODE := 128

  predicate IsCode(s: string) {
    IsPart(s) && |s| <= MAX_CODE
  }

  /** The position of the first c, or the length when there is none (str.partition, str.split). */
  function IndexOf(s: string, c: char): (k: nat)
    ensures k <= |s| && (k < |s| ==> s[k] == c) && c !in s[..k]
    ensures k == |s| <==> c !in s
  {
    if s == "" || s[0] == c then 0
    else
      assert s == [s[0]] + s[1..];
      1 + IndexOf(s[1..], c)
  }

  lemma {:induction false} IndexOfIs(a: string, c: char, b: string)
    requires c !in a
    ensures IndexOf(a + [c] + b, c) == |a|
  {
    if a != "" {
      assert (a + [c] + b)[1..] == a[1..] + [c] + b;
      IndexOfIs(a[1..], c, b);
    }
  }

  predicate IsId(r: Rules, s: string) {
    var k := IndexOf(s, '/');
    k < |s| && IsPart(s[..k]) && IsPart(s[k + 1..]) && r.portable(s[..k]) && r.portable(s[k + 1..])
  }

  /** The id's name, after its namespace. */
  function Tail(id: string): string {
    var k := IndexOf(id, '/');
    if k < |id| then id[k + 1..] else ""
  }

  ghost predicate ValidIds(r: Rules, ids: set<string>, entries: seq<Entry>) {
    && (forall id :: id in ids ==> IsId(r, id))
    && (forall e :: e in entries ==> IsId(r, e.id) && IsCode(e.code))
  }

  function AllIds(ids: set<string>, entries: seq<Entry>): set<string> {
    ids + set e | e in entries :: e.id
  }

  /** code_candidates. */
  function Candidates(code: string, ids: set<string>, entries: seq<Entry>): set<string> {
    (set id | id in AllIds(ids, entries) && Tail(id) == code) + (set e | e in entries && e.code == code :: e.id)
  }

  function CodesOf(id: string, entries: seq<Entry>): set<string> {
    set e | e in entries && e.id == id :: e.code
  }

  function FirstUnambiguous(codes: seq<string>, id: string, ids: set<string>, entries: seq<Entry>): string {
    if codes == [] then id
    else if Candidates(codes[0], ids, entries) == {id} then codes[0]
    else FirstUnambiguous(codes[1..], id, ids, entries)
  }

  /** display_code. */
  ghost function Display(id: string, ids: set<string>, entries: seq<Entry>): string {
    FirstUnambiguous(Sorted(CodesOf(id, entries)) + [Tail(id)], id, ids, entries)
  }

  method DisplayCode(id: string, ids: set<string>, entries: seq<Entry>) returns (code: string)
    ensures code == Display(id, ids, entries)
  {
    var codes := SortNames(CodesOf(id, entries));
    codes := codes + [Tail(id)];
    var i := 0;
    while i < |codes|
      invariant 0 <= i <= |codes|
      invariant FirstUnambiguous(codes[i..], id, ids, entries) == Display(id, ids, entries)
    {
      if Candidates(codes[i], ids, entries) == {id} {
        return codes[i];
      }
      assert codes[i..][1..] == codes[i + 1..];
      i := i + 1;
    }
    return id;
  }

  datatype Expanded = Ok(reference: string) | BadReference | Ambiguous | Unknown

  /** resolve_code, with a suffix for the version. */
  function Resolve(code: string, suffix: string, ids: set<string>, entries: seq<Entry>): Expanded {
    var found := Candidates(code, ids, entries);
    if |found| > 1 then Ambiguous
    else if found == {} then Unknown
    else
      Singleton(found);
      var id :| id in found;
      Ok(id + suffix)
  }

  lemma Singleton(s: set<string>)
    requires s != {} && |s| <= 1
    ensures forall a, b :: a in s && b in s ==> a == b
  {
    forall a, b | a in s && b in s
      ensures a == b
    {
      if a != b {
        assert {a, b} <= s;
        SubsetSize({a, b}, s);
      }
    }
  }

  /** _workflow_reference. */
  predicate IsReference(r: Rules, reference: string) {
    var k := IndexOf(reference, '@');
    var name := reference[..k];
    && (if '/' in name then IsId(r, name) else IsCode(name))
    && (k < |reference| ==> r.version(reference[k + 1..]))
  }

  /** _expand_workflow_reference over one catalog. */
  function Expand(r: Rules, reference: string, ids: set<string>, entries: seq<Entry>): Expanded {
    var k := IndexOf(reference, '@');
    var name := reference[..k];
    if !IsReference(r, reference) then BadReference
    else if '/' in name then Ok(reference)
    else Resolve(name, reference[k..], ids, entries)
  }

  /** Without a catalog in hand: the cached one first, and a refreshed one only for an unknown code. */
  function ExpandRefreshing(
      r: Rules, reference: string, ids: set<string>, cached: seq<Entry>, renewed: seq<Entry>): Expanded {
    var first := Expand(r, reference, ids, cached);
    if first.Unknown? then Expand(r, reference, ids, renewed) else first
  }

  // ----- what is displayed expands to what it was displayed for -----

  lemma PartHasNo(s: string, c: char)
    requires IsPart(s) && (c == '/' || c == '@')
    ensures c !in s
  {
    assert forall i :: 0 <= i < |s| ==> s[i] != c;
  }

  lemma IdShape(r: Rules, id: string)
    requires IsId(r, id)
    ensures '/' in id && '@' !in id && IsPart(Tail(id))
  {
    var k := IndexOf(id, '/');
    PartHasNo(id[..k], '@');
    PartHasNo(id[k + 1..], '@');
    assert id == id[..k] + ['/'] + id[k + 1..];
  }

  lemma {:induction false} FirstUnambiguousIs(codes: seq<string>, id: string, ids: set<string>, entries: seq<Entry>)
    ensures
      var d := FirstUnambiguous(codes, id, ids, entries);
      d == id || (d in codes && Candidates(d, ids, entries) == {id})
  {
    if codes != [] {
      FirstUnambiguousIs(codes[1..], id, ids, entries);
    }
  }

  /** A displayed text is the full id, or a name of which the id is the only candidate. */
  lemma DisplayIs(r: Rules, id: string, ids: set<string>, entries: seq<Entry>)
    requires ValidIds(r, ids, entries) && IsId(r, id)
    ensures
      var d := Display(id, ids, entries);
      d == id || (IsPart(d) && Candidates(d, ids, entries) == {id})
  {
    FirstUnambiguousIs(Sorted(CodesOf(id, entries)) + [Tail(id)], id, ids, entries);
    IdShape(r, id);
  }

  /** Distinct ids never share a displayed code. */
  lemma DisplayIsInjective(r: Rules, a: string, b: string, ids: set<string>, entries: seq<Entry>)
    requires ValidIds(r, ids, entries) && IsId(r, a) && IsId(r, b)
    requires Display(a, ids, entries) == Display(b, ids, entries)
    ensures a == b
  {
    DisplayIs(r, a, ids, entries);
    DisplayIs(r, b, ids, entries);
    IdShape(r, a);
    IdShape(r, b);
    var d := Display(a, ids, entries);
    if IsPart(d) {
      PartHasNo(d, '/');
      assert a in Candidates(d, ids, entries);
    }
  }

  /** A name and its version are split where they were joined. */
  lemma ReferenceParts(name: string, version: string)
    requires '@' !in name
    ensures
      var s := name + "@" + version;
      IndexOf(s, '@') == |name| && s[..|name|] == name && s[|name| + 1..] == version && s[|name|..] == "@" + version
  {
    var s := name + "@" + version;
    assert s == name + ['@'] + version;
    IndexOfIs(name, '@', version);
  }

  function Versioned(name: string, version: string, with: bool): string {
    if with then name + "@" + version else name
  }

  /** Expanding a code resolves it; expanding a full id returns it. */
  lemma ExpandIs(r: Rules, name: string, version: string, with: bool, ids: set<string>, entries: seq<Entry>)
    requires (IsId(r, name) || IsPart(name)) && (with ==> r.version(version))
    ensures Expand(r, Versioned(name, version, with), ids, entries) ==
      if IsId(r, name) then Ok(Versioned(name, version, with))
      else if |name| > MAX_CODE then BadReference
      else Resolve(name, if with then "@" + version else "", ids, entries)
  {
    if IsId(r, name) {
      IdShape(r, name);
    } else {
      PartHasNo(name, '/');
      PartHasNo(name, '@');
    }
    if with {
      ReferenceParts(name, version);
    } else {
      assert name[..|name|] == name && name[|name|..] == "";
    }
  }

  lemma ResolveIs(code: string, suffix: string, id: string, ids: set<string>, entries: seq<Entry>)
    requires id in Candidates(code, ids, entries)
    ensures Resolve(code, suffix, ids, entries) == Ok(id + suffix) <==> Candidates(code, ids, entries) == {id}
    ensures Candidates(code, ids, entries) != {id} ==> Resolve(code, suffix, ids, entries) == Ambiguous
  {
    var found := Candidates(code, ids, entries);
    if |found| <= 1 {
      Singleton(found);
      assert found == {id};
    }
  }

  /**
   Over one set of ids and one catalog, expanding a displayed text, with or without a version, gives back
   the id it was displayed for, exactly when the text is a full id or within the length of a code; and a
   refreshed catalog, whatever it holds, is never asked.
   */
  lemma DisplayedExpandsExactlyWhen(
      r: Rules, id: string, version: string, with: bool, ids: set<string>, entries: seq<Entry>, renewed: seq<Entry>)
    requires ValidIds(r, ids, entries) && IsId(r, id) && (with ==> r.version(version))
    ensures
      var d := Display(id, ids, entries);
      ExpandRefreshing(r, Versioned(d, version, with), ids, entries, renewed) == Ok(Versioned(id, version, with)) <==>
      d == id || |d| <= MAX_CODE
    ensures
      var reference := Versioned(Display(id, ids, entries), version, with);
      ExpandRefreshing(r, reference, ids, entries, renewed) == Expand(r, reference, ids, entries)
  {
    DisplayIs(r, id, ids, entries);
    var d := Display(id, ids, entries);
    ExpandIs(r, d, version, with, ids, entries);
    if d != id {
      IdShape(r, id);
      PartHasNo(d, '/');
      assert !IsId(r, d);
      var suffix := if with then "@" + version else "";
      assert id + "" == id && id + ("@" + version) == id + "@" + version;
      ResolveIs(d, suffix, id, ids, entries);
    }
  }

  function IdOf(space: string, name: string): string {
    space + "/" + name
  }

  lemma IdOfIs(r: Rules, space: string, name: string)
    requires IsPart(space) && IsPart(name) && r.portable(space) && r.portable(name)
    ensures IsId(r, IdOf(space, name)) && Tail(IdOf(space, name)) == name
  {
    PartHasNo(space, '/');
    IndexOfIs(space, '/', name);
    var id := IdOf(space, name);
    assert id == space + ['/'] + name;
    assert id[..|space|] == space && id[|space| + 1..] == name;
  }

  /** Without a catalog, the only id with its name is displayed by that name. */
  lemma OnlyIdIsDisplayed(id: string)
    ensures Display(id, {id}, []) == Tail(id)
  {
    assert CodesOf(id, []) == {};
    assert Candidates(Tail(id), {id}, []) == {id};
    assert Sorted({}) + [Tail(id)] == [Tail(id)];
  }

  /** An id whose name is longer than a code is displayed by a name that cannot be expanded. */
  lemma LongNameMisleads(r: Rules, space: string, name: string)
    requires IsPart(space) && IsPart(name) && r.portable(space) && r.portable(name) && |name| > MAX_CODE
    ensures
      var id := IdOf(space, name);
      IsId(r, id) && Display(id, {id}, []) == name && Expand(r, name, {id}, []) == BadReference
  {
    var id := IdOf(space, name);
    IdOfIs(r, space, name);
    OnlyIdIsDisplayed(id);
    PartHasNo(name, '/');
    ExpandIs(r, name, "", false, {id}, []);
  }

  // ----- the list of installed workflows -----

  lemma MoreIds(code: string, ids: set<string>, known: set<string>, entries: seq<Entry>)
    requires ids <= known
    ensures Candidates(code, known, entries) ==
      Candidates(code, ids, entries) + set id | id in known && Tail(id) == code
  {
  }

  /**
   The list of installed workflows displays against the installed ids only, while expansion also knows the
   bundled ones. A code from that list still gives back its id exactly when no other known id ends in it.
   */
  lemma InstalledListExpandsExactlyWhen(
      r: Rules, id: string, installed: set<string>, known: set<string>, entries: seq<Entry>)
    requires ValidIds(r, known, entries) && installed <= known && id in installed
    ensures
      var d := Display(id, installed, entries);
      Expand(r, d, known, entries) == Ok(id) <==>
      d == id || (|d| <= MAX_CODE && forall k :: k in known && Tail(k) == d ==> k == id)
  {
    DisplayIs(r, id, installed, entries);
    var d := Display(id, installed, entries);
    IdShape(r, id);
    ExpandIs(r, d, "", false, known, entries);
    if d != id {
      PartHasNo(d, '/');
      MoreIds(d, installed, known, entries);
      assert id + "" == id;
      ResolveIs(d, "", id, known, entries);
      OnlyCandidate(d, id, known, entries);
    }
  }

  lemma OnlyCandidate(code: string, id: string, ids: set<string>, entries: seq<Entry>)
    ensures Candidates(code, ids, entries) == {id} ==> forall k :: k in ids && Tail(k) == code ==> k == id
  {
    forall k | k in ids && Tail(k) == code
      ensures k in Candidates(code, ids, entries)
    {
    }
  }

  /** An installed workflow that shares its name with a bundled one is listed by a code that is ambiguous. */
  lemma SharedNameMisleads(r: Rules, a: string, b: string, name: string)
    requires IsPart(a) && IsPart(b) && IsCode(name) && a != b
    requires r.portable(a) && r.portable(b) && r.portable(name)
    ensures
      var id, other := IdOf(a, name), IdOf(b, name);
      && IsId(r, id) && IsId(r, other)
      && Display(id, {id}, []) == name
      && Expand(r, name, {id, other}, []) == Ambiguous
  {
    var id, other := IdOf(a, name), IdOf(b, name);
    IdOfIs(r, a, name);
    IdOfIs(r, b, name);
    IdOfInjective(a, b, name);
    OnlyIdIsDisplayed(id);
    PartHasNo(name, '/');
    ExpandIs(r, name, "", false, {id, other}, []);
    TwoCandidates(id, other);
    ResolveIs(name, "", id, {id, other}, []);
  }

  lemma IdOfInjective(a: string, b: string, name: string)
    requires a != b
    ensures IdOf(a, name) != IdOf(b, name)
  {
    assert |IdOf(a, name)| == |a| + 1 + |name| && |IdOf(b, name)| == |b| + 1 + |name|;
    assert IdOf(a, name)[..|a|] == a && IdOf(b, name)[..|b|] == b;
  }

  lemma TwoCandidates(id: string, other: string)
    requires id != other && Tail(id) == Tail(other)
    ensures id in Candidates(Tail(id), {id, other}, []) && Candidates(Tail(id), {id, other}, []) != {id}
  {
    assert other in Candidates(Tail(id), {id, other}, []);
  }
}
