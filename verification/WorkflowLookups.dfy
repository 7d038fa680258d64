/**
 Which workflow a code or reference stands for and which code a workflow is displayed by, said of the ids and
 the catalog rows alone.
 */
module WorkflowLookups {
  import opened Common
  import opened Ordering
  import opened WorkflowCodes

  // ----- texts -----

  /** Lower-case letters, digits and the three separators, with a letter or digit first. */
  predicate PartText(s: string) {
    && s != "" && ('a' <= s[0] <= 'z' || '0' <= s[0] <= '9')
    && forall i :: 0 <= i < |s| ==> 'a' <= s[i] <= 'z' || '0' <= s[i] <= '9' || s[i] in "._-"
  }

  /** A namespace and a name, both usable as file names. */
  ghost predicate NamesWorkflow(r: Rules, s: string) {
    exists space, name :: s == space + "/" + name
      && PartText(space) && PartText(name) && r.portable(space) && r.portable(name)
  }

  lemma PartIs(s: string)
    ensures IsPart(s) <==> PartText(s)
  {
    assert forall c: char :: c in "._-" <==> c == '.' || c == '_' || c == '-';
  }

  lemma IdIs(r: Rules, s: string)
    ensures IsId(r, s) <==> NamesWorkflow(r, s)
  {
    var k := IndexOf(s, '/');
    if IsId(r, s) {
      PartIs(s[..k]);
      PartIs(s[k + 1..]);
      assert s == s[..k] + "/" + s[k + 1..];
    }
    if NamesWorkflow(r, s) {
      var space, name :| s == space + "/" + name
        && PartText(space) && PartText(name) && r.portable(space) && r.portable(name);
      PartIs(space);
      PartIs(name);
      IdOfIs(r, space, name);
    }
  }

  // ----- candidates -----

  /** The catalog or the installation knows the workflow. */
  ghost predicate Known(id: string, ids: set<string>, entries: seq<Entry>) {
    id in ids || exists i :: 0 <= i < |entries| && entries[i].id == id
  }

  /** The code is the name of a known workflow, or its code in the catalog. */
  ghost predicate StandsFor(code: string, id: string, ids: set<string>, entries: seq<Entry>) {
    || (Known(id, ids, entries) && Tail(id) == code)
    || exists i :: 0 <= i < |entries| && entries[i].id == id && entries[i].code == code
  }

  lemma CandidatesAre(code: string, id: string, ids: set<string>, entries: seq<Entry>)
    ensures id in Candidates(code, ids, entries) <==> StandsFor(code, id, ids, entries)
  {
    if id in Candidates(code, ids, entries) && !(id in AllIds(ids, entries) && Tail(id) == code) {
      var e :| e in entries && e.code == code && e.id == id;
      var i :| 0 <= i < |entries| && entries[i] == e;
    }
    if id in AllIds(ids, entries) && id !in ids {
      var e :| e in entries && e.id == id;
      var i :| 0 <= i < |entries| && entries[i] == e;
    }
    if i :| 0 <= i < |entries| && entries[i].id == id {
      assert entries[i] in entries;
    }
    if i :| 0 <= i < |entries| && entries[i].id == id && entries[i].code == code {
      assert entries[i] in entries;
    }
  }

  ghost predicate StandsOnlyFor(code: string, id: string, ids: set<string>, entries: seq<Entry>) {
    StandsFor(code, id, ids, entries) && forall other :: StandsFor(code, other, ids, entries) ==> other == id
  }

  lemma OnlyCandidateIs(code: string, id: string, ids: set<string>, entries: seq<Entry>)
    ensures Candidates(code, ids, entries) == {id} <==> StandsOnlyFor(code, id, ids, entries)
  {
    forall x
      ensures x in Candidates(code, ids, entries) <==> StandsFor(code, x, ids, entries)
    {
      CandidatesAre(code, x, ids, entries);
    }
  }

  // ----- expansion -----

  /** The reference is well formed: an id or a code of at most 128 characters, and a valid version if any. */
  ghost predicate WellFormed(r: Rules, name: string, version: Option<string>) {
    && (if '/' in name then NamesWorkflow(r, name) else PartText(name) && |name| <= 128)
    && (version.Some? ==> r.version(version.value))
  }

  function Suffix(version: Option<string>): string {
    if version.Some? then "@" + version.value else ""
  }

  function Text(name: string, version: Option<string>): string {
    name + Suffix(version)
  }

  lemma TextParts(name: string, version: Option<string>)
    requires '@' !in name
    ensures
      var s := Text(name, version);
      && IndexOf(s, '@') == |name| && s[..|name|] == name && s[|name|..] == Suffix(version)
      && (version.Some? <==> |name| < |s|) && (version.Some? ==> s[|name| + 1..] == version.value)
  {
    if version.Some? {
      assert name + ("@" + version.value) == name + "@" + version.value;
      ReferenceParts(name, version.value);
    } else {
      assert name + "" == name;
    }
  }

  lemma WellFormedIs(r: Rules, name: string, version: Option<string>)
    requires '@' !in name
    ensures IsReference(r, Text(name, version)) <==> WellFormed(r, name, version)
  {
    TextParts(name, version);
    IdIs(r, name);
    PartIs(name);
  }

  lemma ExpandIsResolve(r: Rules, name: string, version: Option<string>, ids: set<string>, entries: seq<Entry>)
    requires '@' !in name
    ensures Expand(r, Text(name, version), ids, entries) ==
      if !WellFormed(r, name, version) then BadReference
      else if '/' in name then Ok(Text(name, version))
      else Resolve(name, Suffix(version), ids, entries)
  {
    TextParts(name, version);
    WellFormedIs(r, name, version);
  }

  /** A code expands to the workflow it alone stands for, is ambiguous when that is two, and unknown when it is none. */
  ghost predicate ResolvesRight(e: Expanded, code: string, suffix: string, ids: set<string>, entries: seq<Entry>) {
    && !e.BadReference?
    && (e == Unknown <==> forall id :: !StandsFor(code, id, ids, entries))
    && (e == Ambiguous <==> Doubtful(code, ids, entries))
    && (forall id :: e == Ok(id + suffix) <==> StandsOnlyFor(code, id, ids, entries))
  }

  /**
   A reference that is not well formed is refused, a full id stands for itself, and a code with or without a version
   is resolved.
   */
  lemma ExpandsExactlyWhen(r: Rules, name: string, version: Option<string>, ids: set<string>, entries: seq<Entry>)
    requires '@' !in name
    ensures
      var e := Expand(r, Text(name, version), ids, entries);
      if !WellFormed(r, name, version) then e == BadReference
      else if '/' in name then e == Ok(Text(name, version))
      else ResolvesRight(e, name, Suffix(version), ids, entries)
  {
    ExpandIsResolve(r, name, version, ids, entries);
    ResolvesExactlyWhen(name, Suffix(version), ids, entries);
  }

  ghost predicate Doubtful(code: string, ids: set<string>, entries: seq<Entry>) {
    exists a, b :: a != b && StandsFor(code, a, ids, entries) && StandsFor(code, b, ids, entries)
  }

  lemma ResolvesExactlyWhen(code: string, suffix: string, ids: set<string>, entries: seq<Entry>)
    ensures ResolvesRight(Resolve(code, suffix, ids, entries), code, suffix, ids, entries)
  {
    var found := Candidates(code, ids, entries);
    forall x
      ensures x in found <==> StandsFor(code, x, ids, entries)
    {
      CandidatesAre(code, x, ids, entries);
    }
    if |found| > 1 {
      var a, b := TwoOf(found);
      assert Doubtful(code, ids, entries);
    } else if found != {} {
      Singleton(found);
      SameEnd(found, suffix);
    }
    if Doubtful(code, ids, entries) {
      var a, b :| a != b && StandsFor(code, a, ids, entries) && StandsFor(code, b, ids, entries);
      assert {a, b} <= found;
      SubsetSize({a, b}, found);
    }
  }

  lemma TwoOf(s: set<string>) returns (a: string, b: string)
    requires |s| > 1
    ensures a in s && b in s && a != b
  {
    a :| a in s;
    assert |s - {a}| >= 1;
    b :| b in s - {a};
  }

  lemma SameEnd(found: set<string>, suffix: string)
    ensures forall a, b :: a in found && a + suffix == b + suffix ==> a == b
  {
    forall a, b | a in found && a + suffix == b + suffix
      ensures a == b
    {
      assert |a| == |b|;
      assert (a + suffix)[..|a|] == a && (b + suffix)[..|b|] == b;
    }
  }

  /** Without a catalog in hand, a refreshed one is asked exactly for a well-formed code that stands for nothing. */
  lemma RefreshesExactlyWhen(
      r: Rules, name: string, version: Option<string>, ids: set<string>, cached: seq<Entry>, renewed: seq<Entry>)
    requires '@' !in name
    ensures
      var text := Text(name, version);
      var unknown := WellFormed(r, name, version) && '/' !in name && forall id :: !StandsFor(name, id, ids, cached);
      ExpandRefreshing(r, text, ids, cached, renewed) == Expand(r, text, ids, if unknown then renewed else cached)
  {
    ExpandsExactlyWhen(r, name, version, ids, cached);
  }

  // ----- display -----

  /** A code the catalog gives the workflow, and no other. */
  ghost predicate OwnCode(code: string, id: string, ids: set<string>, entries: seq<Entry>) {
    && (exists i :: 0 <= i < |entries| && entries[i].id == id && entries[i].code == code)
    && StandsOnlyFor(code, id, ids, entries)
  }

  lemma CodesAre(code: string, id: string, entries: seq<Entry>)
    ensures code in CodesOf(id, entries) <==>
      exists i :: 0 <= i < |entries| && entries[i].id == id && entries[i].code == code
  {
    if code in CodesOf(id, entries) {
      var e :| e in entries && e.id == id && e.code == code;
      var i :| 0 <= i < |entries| && entries[i] == e;
    }
    if i :| 0 <= i < |entries| && entries[i].id == id && entries[i].code == code {
      assert entries[i] in entries;
    }
  }

  predicate Fits(code: string, id: string, ids: set<string>, entries: seq<Entry>) {
    Candidates(code, ids, entries) == {id}
  }

  /** None of the first n codes fits. */
  predicate NoneFits(codes: seq<string>, n: nat, id: string, ids: set<string>, entries: seq<Entry>)
    requires n <= |codes|
  {
    forall i :: 0 <= i < n ==> !Fits(codes[i], id, ids, entries)
  }

  lemma FirstStep(codes: seq<string>, id: string, ids: set<string>, entries: seq<Entry>)
    ensures FirstUnambiguous(codes, id, ids, entries) ==
      if codes == [] then id
      else if Fits(codes[0], id, ids, entries) then codes[0]
      else FirstUnambiguous(codes[1..], id, ids, entries)
  {
  }

  /** The display is the first code that fits, or the id. */
  lemma {:induction false} FirstOf(codes: seq<string>, id: string, ids: set<string>, entries: seq<Entry>)
    returns (n: nat)
    ensures n <= |codes| && NoneFits(codes, n, id, ids, entries)
    ensures FirstUnambiguous(codes, id, ids, entries) == if n < |codes| then codes[n] else id
    ensures n < |codes| ==> Fits(codes[n], id, ids, entries)
  {
    FirstStep(codes, id, ids, entries);
    n := 0;
    if codes != [] && !Fits(codes[0], id, ids, entries) {
      var m := FirstOf(codes[1..], id, ids, entries);
      n := m + 1;
      NoneFitsNext(codes, m, id, ids, entries);
    }
  }

  lemma NoneFitsNext(codes: seq<string>, m: nat, id: string, ids: set<string>, entries: seq<Entry>)
    requires m < |codes| && !Fits(codes[0], id, ids, entries) && NoneFits(codes[1..], m, id, ids, entries)
    ensures NoneFits(codes, m + 1, id, ids, entries)
  {
    forall i | 0 <= i < m + 1
      ensures !Fits(codes[i], id, ids, entries)
    {
      if i > 0 {
        assert codes[i] == codes[1..][i - 1];
      }
    }
  }

  /** A code the catalog gives the workflow, and that fits. */
  predicate FitsCatalog(code: string, id: string, ids: set<string>, entries: seq<Entry>) {
    code in CodesOf(id, entries) && Fits(code, id, ids, entries)
  }

  lemma OwnCodeIs(code: string, id: string, ids: set<string>, entries: seq<Entry>)
    ensures OwnCode(code, id, ids, entries) <==> FitsCatalog(code, id, ids, entries)
  {
    OnlyCandidateIs(code, id, ids, entries);
    CodesAre(code, id, entries);
  }

  lemma DisplayOrder(id: string, ids: set<string>, entries: seq<Entry>)
    ensures
      var d := Display(id, ids, entries);
      && (forall code :: FitsCatalog(code, id, ids, entries) ==> FitsCatalog(d, id, ids, entries) && LessEq(d, code))
      && (FitsCatalog(d, id, ids, entries) || d == if Fits(Tail(id), id, ids, entries) then Tail(id) else id)
  {
    var codes := Sorted(CodesOf(id, entries));
    var all := codes + [Tail(id)];
    var n := FirstOf(all, id, ids, entries);
    forall code | FitsCatalog(code, id, ids, entries)
      ensures n < |codes| && LessEq(codes[n], code)
    {
      FirstIsLeast(codes, Tail(id), n, code, id, ids, entries);
    }
    if n < |codes| {
      assert all[n] == codes[n] && codes[n] in codes;
    } else {
      assert all[|codes|] == Tail(id);
    }
  }

  /**
   A workflow is displayed by the least of its catalog codes that stand for it alone; failing those by its name, if
   that does; and failing that by its id.
   */
  lemma DisplaysExactlyWhen(id: string, ids: set<string>, entries: seq<Entry>)
    ensures
      var d := Display(id, ids, entries);
      && (forall code :: OwnCode(code, id, ids, entries) ==> OwnCode(d, id, ids, entries) && LessEq(d, code))
      && (OwnCode(d, id, ids, entries) || d == if StandsOnlyFor(Tail(id), id, ids, entries) then Tail(id) else id)
  {
    DisplayOrder(id, ids, entries);
    OnlyCandidateIs(Tail(id), id, ids, entries);
    OwnCodeIs(Display(id, ids, entries), id, ids, entries);
    forall code | OwnCode(code, id, ids, entries)
      ensures FitsCatalog(code, id, ids, entries)
    {
      OwnCodeIs(code, id, ids, entries);
    }
  }

  lemma FirstIsLeast(
      codes: seq<string>, last: string, n: nat, code: string, id: string, ids: set<string>, entries: seq<Entry>)
    requires codes == Sorted(CodesOf(id, entries)) && code in codes && Fits(code, id, ids, entries)
    requires n <= |codes| + 1 && NoneFits(codes + [last], n, id, ids, entries)
    ensures n < |codes| && LessEq(codes[n], code)
  {
    SortedIncreases(CodesOf(id, entries));
    var j :| 0 <= j < |codes| && codes[j] == code;
    assert (codes + [last])[j] == code;
    assert n <= j;
    Total(code, code);
  }
}
