/**
 Canonicalisation of a wheel built from source: _canonicalize_built_wheel in
 tools/windows_worker_wheelhouse.py.

 Path safety, case folding, the recognition of METADATA, UTF-8 validity, SHA-256 and the CSV encoding of
 RECORD are parameters. Sorting by UTF-8 bytes is sorting by code points.
 */
module WheelCanonical {
  import opened Common
  import opened Newlines
  import opened Ordering

  datatype Info = Info(name: string, content: Bytes)

  /** One row of RECORD; the row of RECORD itself has neither digest nor size. */
  datatype Row = Row(name: string, digest: string, size: Option<nat>)

  datatype Rules = Rules(
    safe: string -> bool, fold: string -> string, isMetadata: string -> bool, recordOf: string -> string,
    utf8: Bytes -> bool, digest: Bytes -> string, encode: seq<Row> -> Bytes)

  const MAX_ENTRIES := 4096
  const MAX_BYTES := 64 * 1024 * 1024

  type Entries = map<string, Bytes>

  function TotalSize(infos: seq<Info>): nat {
    if infos == [] then 0 else TotalSize(infos[..|infos| - 1]) + |infos[|infos| - 1].content|
  }

  /** No two entries have names that differ at most in case. */
  ghost predicate DistinctNames(r: Rules, infos: seq<Info>) {
    forall i, j :: 0 <= i < j < |infos| ==> r.fold(infos[i].name) != r.fold(infos[j].name)
  }

  ghost predicate AllSafe(r: Rules, infos: seq<Info>) {
    forall i :: 0 <= i < |infos| ==> r.safe(infos[i].name)
  }

  ghost predicate Readable(r: Rules, infos: seq<Info>) {
    && infos != [] && |infos| <= MAX_ENTRIES
    && AllSafe(r, infos) && DistinctNames(r, infos) && TotalSize(infos) <= MAX_BYTES
  }

  function EntriesOf(infos: seq<Info>): Entries {
    if infos == [] then map[]
    else EntriesOf(infos[..|infos| - 1])[infos[|infos| - 1].name := infos[|infos| - 1].content]
  }

  function MetadataNames(r: Rules, entries: Entries): set<string> {
    set name | name in entries && r.isMetadata(name)
  }

  function RowOf(r: Rules, entries: Entries, name: string): Row
    requires name in entries
  {
    Row(name, r.digest(entries[name]), Some(|entries[name]|))
  }

  function Rows(r: Rules, entries: Entries, names: seq<string>): seq<Row>
    requires forall i :: 0 <= i < |names| ==> names[i] in entries
  {
    seq(|names|, i requires 0 <= i < |names| => RowOf(r, entries, names[i]))
  }

  ghost function RecordRows(r: Rules, entries: Entries, record: string): seq<Row> {
    var names := Sorted(entries.Keys - {record});
    assert forall i :: 0 <= i < |names| ==> names[i] in names;
    Rows(r, entries, names) + [Row(record, "", None)]
  }

  ghost function Listing(entries: Entries): seq<Info> {
    var names := Sorted(entries.Keys);
    seq(|names|, i requires 0 <= i < |names| => Info(names[i], entries[names[i]]))
  }

  /** The entries with METADATA normalised and RECORD rebuilt. */
  ghost function Rebuilt(r: Rules, entries: Entries, metadata: string): Entries
    requires metadata in entries
  {
    var normalised := entries[metadata := Normalise(entries[metadata])];
    normalised[r.recordOf(metadata) := r.encode(RecordRows(r, normalised, r.recordOf(metadata)))]
  }

  ghost predicate Canonicalisable(r: Rules, entries: Entries, metadata: string) {
    && MetadataNames(r, entries) == {metadata}
    && r.recordOf(metadata) in entries
    && metadata in entries && r.utf8(Normalise(entries[metadata]))
  }

  /** METADATA and RECORD are different files of one directory. */
  ghost predicate Lawful(r: Rules) {
    forall name :: r.isMetadata(name) ==> r.recordOf(name) != name && !r.isMetadata(r.recordOf(name))
  }

  /** The canonical archive; None is the exception, whichever check raises it. */
  ghost function Canonicalised(r: Rules, infos: seq<Info>): Option<seq<Info>> {
    var entries := EntriesOf(infos);
    if Readable(r, infos) && exists m :: Canonicalisable(r, entries, m) then
      var metadata :| Canonicalisable(r, entries, metadata);
      Some(Listing(Rebuilt(r, entries, metadata)))
    else None
  }

  lemma CanonicalisedIs(r: Rules, infos: seq<Info>, metadata: string)
    requires Readable(r, infos) && Canonicalisable(r, EntriesOf(infos), metadata)
    ensures Canonicalised(r, infos) == Some(Listing(Rebuilt(r, EntriesOf(infos), metadata)))
  {
    forall m | Canonicalisable(r, EntriesOf(infos), m)
      ensures m == metadata
    {
      assert m in {metadata};
    }
  }

  // ----- entries -----

  ghost predicate NamesDiffer(infos: seq<Info>) {
    forall i, j :: 0 <= i < j < |infos| ==> infos[i].name != infos[j].name
  }

  ghost predicate Includes(infos: seq<Info>, name: string) {
    exists i :: 0 <= i < |infos| && infos[i].name == name
  }

  /** The entries are those of the archive, each with the content it has there. */
  ghost predicate Lists(infos: seq<Info>, entries: Entries) {
    && (forall x :: x in infos ==> x.name in entries && entries[x.name] == x.content)
    && (forall name :: name in entries ==> Includes(infos, name))
  }

  lemma ListsUnique(infos: seq<Info>, a: Entries, b: Entries)
    requires Lists(infos, a) && Lists(infos, b)
    ensures a == b
  {
    forall name | name in a
      ensures name in b && a[name] == b[name]
    {
      assert Includes(infos, name);
    }
    forall name | name in b
      ensures name in a
    {
      assert Includes(infos, name);
    }
  }

  lemma {:induction false} EntriesAre(infos: seq<Info>)
    requires NamesDiffer(infos)
    ensures Lists(infos, EntriesOf(infos)) && |EntriesOf(infos)| == |infos|
  {
    if infos != [] {
      var front, last := infos[..|infos| - 1], infos[|infos| - 1];
      assert infos == front + [last];
      FrontDiffers(front, last);
      EntriesAre(front);
      AddedEntry(front, last, EntriesOf(front));
    }
  }

  lemma FrontDiffers(front: seq<Info>, last: Info)
    requires NamesDiffer(front + [last])
    ensures NamesDiffer(front)
    ensures forall x :: x in front ==> x.name != last.name
  {
    var infos := front + [last];
    assert forall i :: 0 <= i < |front| ==> infos[i] == front[i];
    forall x | x in front
      ensures x.name != last.name
    {
      var i :| 0 <= i < |front| && front[i] == x;
      assert infos[i].name != infos[|front|].name;
    }
  }

  lemma AddedEntry(front: seq<Info>, last: Info, entries: Entries)
    requires Lists(front, entries) && NamesDiffer(front + [last])
    ensures last.name !in entries && Lists(front + [last], entries[last.name := last.content])
  {
    var infos := front + [last];
    FrontDiffers(front, last);
    assert last.name in entries ==> Includes(front, last.name);
    forall name | name in entries[last.name := last.content]
      ensures Includes(infos, name)
    {
      if name == last.name {
        assert infos[|front|].name == name;
      } else {
        assert Includes(front, name);
        var i :| 0 <= i < |front| && front[i].name == name;
        assert infos[i].name == name;
      }
    }
  }

  /** Different names of a readable archive differ in more than case. */
  lemma FoldsDiffer(r: Rules, infos: seq<Info>, a: string, b: string)
    requires DistinctNames(r, infos) && Includes(infos, a) && Includes(infos, b) && a != b
    ensures r.fold(a) != r.fold(b)
  {
    var i :| 0 <= i < |infos| && infos[i].name == a;
    var j :| 0 <= j < |infos| && infos[j].name == b;
    if i < j {
      assert r.fold(infos[i].name) != r.fold(infos[j].name);
    } else {
      assert r.fold(infos[j].name) != r.fold(infos[i].name);
    }
  }

  lemma DistinctNamesDiffer(r: Rules, infos: seq<Info>)
    requires DistinctNames(r, infos)
    ensures NamesDiffer(infos)
  {
    forall i, j | 0 <= i < j < |infos|
      ensures infos[i].name != infos[j].name
    {
      assert r.fold(infos[i].name) != r.fold(infos[j].name);
    }
  }

  lemma ListingNames(entries: Entries)
    ensures |Listing(entries)| == |entries| && NamesDiffer(Listing(entries))
  {
    SortedIncreases(entries.Keys);
    var names := Sorted(entries.Keys);
    assert forall i :: 0 <= i < |names| ==> Listing(entries)[i].name == names[i];
  }

  lemma ListingLists(entries: Entries)
    ensures Lists(Listing(entries), entries)
  {
    var names := Sorted(entries.Keys);
    var l := Listing(entries);
    forall name | name in entries
      ensures Includes(l, name)
    {
      assert name in names;
      var i :| 0 <= i < |names| && names[i] == name;
      assert l[i].name == name;
    }
  }

  /** Reading the canonical archive gives back its entries. */
  lemma ListingEntries(entries: Entries)
    ensures EntriesOf(Listing(entries)) == entries
  {
    ListingNames(entries);
    ListingLists(entries);
    EntriesAre(Listing(entries));
    ListsUnique(Listing(entries), EntriesOf(Listing(entries)), entries);
  }

  // ----- the order of the entries does not matter -----

  lemma {:induction false} TotalWithout(infos: seq<Info>, k: nat)
    requires k < |infos|
    ensures TotalSize(infos) == TotalSize(infos[..k] + infos[k + 1..]) + |infos[k].content|
  {
    var last := infos[|infos| - 1];
    var front := infos[..|infos| - 1];
    if k == |infos| - 1 {
      assert infos[..k] + infos[k + 1..] == front;
    } else {
      TotalWithout(front, k);
      var rest := infos[..k] + infos[k + 1..];
      assert rest[..|rest| - 1] == front[..k] + front[k + 1..];
      assert rest[|rest| - 1] == last;
    }
  }

  lemma Removed(infos: seq<Info>, k: nat)
    requires k < |infos|
    ensures multiset(infos) == multiset(infos[..k] + infos[k + 1..]) + multiset{infos[k]}
  {
    assert infos == infos[..k] + [infos[k]] + infos[k + 1..];
  }

  lemma SameWithout(a: multiset<Info>, b: multiset<Info>, x: Info)
    requires a + multiset{x} == b + multiset{x}
    ensures a == b
  {
    assert a == a + multiset{x} - multiset{x} && b == b + multiset{x} - multiset{x};
  }

  lemma {:induction false} TotalPermuted(a: seq<Info>, b: seq<Info>)
    requires multiset(a) == multiset(b)
    ensures TotalSize(a) == TotalSize(b)
    decreases |a|
  {
    if a == [] {
      assert |multiset(b)| == 0;
    } else {
      var k := |a| - 1;
      Removed(a, k);
      assert a[k] in multiset(b);
      var j :| 0 <= j < |b| && b[j] == a[k];
      Removed(b, j);
      SameWithout(multiset(a[..k] + a[k + 1..]), multiset(b[..j] + b[j + 1..]), a[k]);
      TotalPermuted(a[..k] + a[k + 1..], b[..j] + b[j + 1..]);
      TotalWithout(a, k);
      TotalWithout(b, j);
    }
  }

  lemma {:induction false} Once(infos: seq<Info>, x: Info)
    requires NamesDiffer(infos)
    ensures multiset(infos)[x] <= 1
  {
    if infos != [] {
      var front, last := infos[..|infos| - 1], infos[|infos| - 1];
      assert infos == front + [last];
      FrontDiffers(front, last);
      Once(front, x);
    }
  }

  lemma Twice(infos: seq<Info>, i: nat, j: nat)
    requires i < j < |infos| && infos[i] == infos[j]
    ensures multiset(infos)[infos[i]] >= 2
  {
    assert infos == infos[..j] + infos[j..];
    assert infos[..j][i] == infos[i] && infos[j..][0] == infos[i];
    assert infos[i] in multiset(infos[..j]) && infos[i] in multiset(infos[j..]);
  }

  lemma NamesPermuted(r: Rules, a: seq<Info>, b: seq<Info>)
    requires DistinctNames(r, a) && multiset(a) == multiset(b)
    ensures DistinctNames(r, b)
  {
    DistinctNamesDiffer(r, a);
    forall i, j | 0 <= i < j < |b|
      ensures r.fold(b[i].name) != r.fold(b[j].name)
    {
      assert b[i] in multiset(a) && b[j] in multiset(a);
      if b[i] == b[j] {
        Twice(b, i, j);
        Once(a, b[i]);
      } else {
        var k :| 0 <= k < |a| && a[k] == b[i];
        var l :| 0 <= l < |a| && a[l] == b[j];
        assert r.fold(a[if k < l then k else l].name) != r.fold(a[if k < l then l else k].name);
      }
    }
  }

  lemma ReadablePermuted(r: Rules, a: seq<Info>, b: seq<Info>)
    requires Readable(r, a) && multiset(a) == multiset(b)
    ensures Readable(r, b)
  {
    NamesPermuted(r, a, b);
    TotalPermuted(a, b);
    assert |a| == |multiset(a)| == |b|;
    forall i | 0 <= i < |b|
      ensures r.safe(b[i].name)
    {
      assert b[i] in multiset(a);
      var k :| 0 <= k < |a| && a[k] == b[i];
    }
  }

  lemma EntriesPermuted(a: seq<Info>, b: seq<Info>)
    requires NamesDiffer(a) && NamesDiffer(b) && multiset(a) == multiset(b)
    ensures EntriesOf(a) == EntriesOf(b)
  {
    EntriesAre(a);
    EntriesAre(b);
    forall x | x in a
      ensures x in b
    {
      assert x in multiset(b);
    }
    forall x | x in b
      ensures x in a
    {
      assert x in multiset(a);
    }
    forall name | name in EntriesOf(b)
      ensures Includes(a, name)
    {
      assert Includes(b, name);
      var i :| 0 <= i < |b| && b[i].name == name;
      assert b[i] in a;
    }
    ListsUnique(a, EntriesOf(a), EntriesOf(b));
  }

  /** Any two archives with the same entries have the same canonical form, or are both refused. */
  lemma OrderDoesNotMatter(r: Rules, a: seq<Info>, b: seq<Info>)
    requires multiset(a) == multiset(b)
    ensures Canonicalised(r, a) == Canonicalised(r, b)
  {
    if Readable(r, a) || Readable(r, b) {
      if Readable(r, a) {
        ReadablePermuted(r, a, b);
      } else {
        ReadablePermuted(r, b, a);
      }
      DistinctNamesDiffer(r, a);
      DistinctNamesDiffer(r, b);
      EntriesPermuted(a, b);
      if m :| Canonicalisable(r, EntriesOf(a), m) {
        CanonicalisedIs(r, a, m);
        CanonicalisedIs(r, b, m);
      }
    }
  }
}
