/**
 What the canonical form of a wheel depends on, and what its RECORD says.
 */
module WheelResults {
  import opened Common
  import opened Newlines
  import opened Ordering
  import opened WheelCanonical

  // ----- RECORD -----

  /** The rows of RECORD are the other entries, once each, in order, with their digest and size; then RECORD. */
  ghost predicate RecordsOthers(r: Rules, rows: seq<Row>, entries: Entries, record: string) {
    && |rows| == |entries| && rows != []
    && rows[|rows| - 1] == Row(record, "", None)
    && (forall i :: 0 <= i < |rows| - 1 ==> RecordsEntry(r, rows[i], entries, record))
    && (forall i, j :: 0 <= i < j < |rows| - 1 ==> rows[i].name != rows[j].name && LessEq(rows[i].name, rows[j].name))
    && (forall name :: name in entries && name != record ==>
         Row(name, r.digest(entries[name]), Some(|entries[name]|)) in rows)
  }

  predicate RecordsEntry(r: Rules, row: Row, entries: Entries, record: string) {
    && row.name in entries && row.name != record
    && row.digest == r.digest(entries[row.name]) && row.size == Some(|entries[row.name]|)
  }

  lemma RowsAre(r: Rules, entries: Entries, record: string, names: seq<string>, rows: seq<Row>)
    requires Increasing(names) && (forall i :: 0 <= i < |names| ==> names[i] in entries && names[i] != record)
    requires rows == Rows(r, entries, names) + [Row(record, "", None)]
    ensures forall i :: 0 <= i < |rows| - 1 ==> RecordsEntry(r, rows[i], entries, record)
    ensures forall i, j :: 0 <= i < j < |rows| - 1 ==>
      rows[i].name != rows[j].name && LessEq(rows[i].name, rows[j].name)
    ensures forall name :: name in names ==> name in entries && RowOf(r, entries, name) in rows
  {
    assert forall i :: 0 <= i < |names| ==> rows[i] == RowOf(r, entries, names[i]);
  }

  lemma RecordRowsAre(r: Rules, entries: Entries, record: string)
    requires record in entries
    ensures RecordsOthers(r, RecordRows(r, entries, record), entries, record)
  {
    var others := entries.Keys - {record};
    var names := Sorted(others);
    SortedIncreases(others);
    assert forall i :: 0 <= i < |names| ==> names[i] in names;
    RowsAre(r, entries, record, names, RecordRows(r, entries, record));
    assert entries.Keys == others + {record};
    assert |entries.Keys| == |others| + 1;
  }

  /** The rows depend only on the other entries. */
  lemma RowsIgnoreRecord(r: Rules, a: Entries, b: Entries, record: string)
    requires a.Keys == b.Keys && forall name :: name in a && name != record ==> a[name] == b[name]
    ensures RecordRows(r, a, record) == RecordRows(r, b, record)
  {
    var names := Sorted(a.Keys - {record});
    forall i | 0 <= i < |names|
      ensures names[i] in a && names[i] != record && RowOf(r, a, names[i]) == RowOf(r, b, names[i])
    {
      assert names[i] in names;
    }
    assert Rows(r, a, names) == Rows(r, b, names);
  }

  // ----- the rebuilt entries -----

  lemma RebuiltIs(r: Rules, entries: Entries, metadata: string)
    requires Lawful(r) && Canonicalisable(r, entries, metadata)
    ensures
      var e := Rebuilt(r, entries, metadata);
      var record := r.recordOf(metadata);
      && e.Keys == entries.Keys && record != metadata
      && e[metadata] == Normalise(entries[metadata])
      && e[record] == r.encode(RecordRows(r, e, record))
      && forall name :: name in entries && name != metadata && name != record ==> e[name] == entries[name]
  {
    assert metadata in MetadataNames(r, entries);
    var record := r.recordOf(metadata);
    var normalised := entries[metadata := Normalise(entries[metadata])];
    RowsIgnoreRecord(r, normalised, Rebuilt(r, entries, metadata), record);
  }

  lemma RebuiltAgain(r: Rules, entries: Entries, metadata: string)
    requires Lawful(r) && Canonicalisable(r, entries, metadata)
    ensures
      var e := Rebuilt(r, entries, metadata);
      Canonicalisable(r, e, metadata) && Rebuilt(r, e, metadata) == e
  {
    RebuiltIs(r, entries, metadata);
    NormaliseIdempotent(entries[metadata]);
    var e := Rebuilt(r, entries, metadata);
    assert MetadataNames(r, e) == MetadataNames(r, entries);
    RebuiltFixed(r, e, metadata);
  }

  /** Entries with METADATA normalised and RECORD written are rebuilt as they are. */
  lemma RebuiltFixed(r: Rules, e: Entries, metadata: string)
    requires metadata in e && r.recordOf(metadata) in e && Normalise(e[metadata]) == e[metadata]
    requires e[r.recordOf(metadata)] == r.encode(RecordRows(r, e, r.recordOf(metadata)))
    ensures Rebuilt(r, e, metadata) == e
  {
    assert e[metadata := Normalise(e[metadata])] == e;
  }

  /**
   In the canonical form RECORD is the encoding of one row for every other entry, with its digest and size,
   and a row for itself; entries other than METADATA and RECORD are as they were.
   */
  lemma RecordListsEveryOtherEntryOnce(r: Rules, infos: seq<Info>, metadata: string)
    requires Lawful(r) && Readable(r, infos) && Canonicalisable(r, EntriesOf(infos), metadata)
    ensures Canonicalised(r, infos).Some?
    ensures
      var e := EntriesOf(Canonicalised(r, infos).value);
      var record := r.recordOf(metadata);
      && e.Keys == EntriesOf(infos).Keys && record in e
      && e[record] == r.encode(RecordRows(r, e, record))
      && RecordsOthers(r, RecordRows(r, e, record), e, record)
      && forall name :: name in e && name != metadata && name != record ==> e[name] == EntriesOf(infos)[name]
  {
    CanonicalisedIs(r, infos, metadata);
    var e := Rebuilt(r, EntriesOf(infos), metadata);
    ListingEntries(e);
    RebuiltIs(r, EntriesOf(infos), metadata);
    RecordRowsAre(r, e, r.recordOf(metadata));
  }

  // ----- idempotence -----

  lemma SameNamesReadable(r: Rules, infos: seq<Info>, e: Entries)
    requires Readable(r, infos) && e.Keys == EntriesOf(infos).Keys
    ensures Readable(r, Listing(e)) <==> TotalSize(Listing(e)) <= MAX_BYTES
  {
    var l := Listing(e);
    DistinctNamesDiffer(r, infos);
    EntriesAre(infos);
    ListingNames(e);
    ListingLists(e);
    assert |e.Keys| == |EntriesOf(infos).Keys|;
    forall i | 0 <= i < |l|
      ensures r.safe(l[i].name) && Includes(infos, l[i].name)
    {
      assert l[i] in l;
      assert Includes(infos, l[i].name);
      var k :| 0 <= k < |infos| && infos[k].name == l[i].name;
    }
    forall i, j | 0 <= i < j < |l|
      ensures r.fold(l[i].name) != r.fold(l[j].name)
    {
      FoldsDiffer(r, infos, l[i].name, l[j].name);
    }
  }

  // ----- which archives have a canonical form -----

  /** Exactly one entry is METADATA, its RECORD is there, and normalised it is UTF-8. */
  ghost predicate HasMetadata(r: Rules, infos: seq<Info>, k: nat) {
    && k < |infos| && r.isMetadata(infos[k].name)
    && (forall j :: 0 <= j < |infos| && r.isMetadata(infos[j].name) ==> j == k)
    && Includes(infos, r.recordOf(infos[k].name))
    && r.utf8(Normalise(infos[k].content))
  }

  /** At least one and at most 4096 entries, of safe names that differ in more than case, 64 MiB in all. */
  ghost predicate Passes(r: Rules, infos: seq<Info>) {
    && 1 <= |infos| <= 4096
    && (forall i :: 0 <= i < |infos| ==> r.safe(infos[i].name))
    && (forall i, j :: 0 <= i < j < |infos| ==> r.fold(infos[i].name) != r.fold(infos[j].name))
    && TotalSize(infos) <= 67108864
  }

  lemma MetadataIs(r: Rules, infos: seq<Info>, k: nat)
    requires NamesDiffer(infos) && k < |infos|
    ensures HasMetadata(r, infos, k) <==> Canonicalisable(r, EntriesOf(infos), infos[k].name)
  {
    var entries, name := EntriesOf(infos), infos[k].name;
    EntriesAre(infos);
    assert infos[k] in infos;
    assert forall n :: n in entries <==> Includes(infos, n) by {
      forall n | Includes(infos, n)
        ensures n in entries
      {
        var i :| 0 <= i < |infos| && infos[i].name == n;
        assert infos[i] in infos;
      }
    }
    if HasMetadata(r, infos, k) {
      forall n | n in MetadataNames(r, entries)
        ensures n == name
      {
        assert Includes(infos, n);
        var i :| 0 <= i < |infos| && infos[i].name == n;
      }
      assert MetadataNames(r, entries) == {name};
    }
    if Canonicalisable(r, entries, name) {
      assert name in MetadataNames(r, entries);
      forall j | 0 <= j < |infos| && r.isMetadata(infos[j].name)
        ensures j == k
      {
        assert infos[j] in infos && infos[j].name in MetadataNames(r, entries);
        OnePlace(infos, j, k);
      }
    }
  }

  lemma OnePlace(infos: seq<Info>, j: nat, k: nat)
    requires NamesDiffer(infos) && j < |infos| && k < |infos| && infos[j].name == infos[k].name
    ensures j == k
  {
  }

  /** An archive has a canonical form exactly when it passes the checks and has its METADATA and RECORD. */
  lemma CanonicalisedExactlyWhen(r: Rules, infos: seq<Info>)
    ensures Canonicalised(r, infos).Some? <==> Passes(r, infos) && exists k: nat :: HasMetadata(r, infos, k)
  {
    assert Passes(r, infos) <==> Readable(r, infos);
    if Readable(r, infos) {
      DistinctNamesDiffer(r, infos);
      if k: nat :| HasMetadata(r, infos, k) {
        MetadataIs(r, infos, k);
      }
      if m :| Canonicalisable(r, EntriesOf(infos), m) {
        EntriesAre(infos);
        assert Includes(infos, m);
        var k :| 0 <= k < |infos| && infos[k].name == m;
        MetadataIs(r, infos, k);
      }
    }
  }

  /** The entries of a canonical form are in the order of their names. */
  lemma CanonicalFormIsSorted(r: Rules, infos: seq<Info>, i: nat, j: nat)
    requires Canonicalised(r, infos).Some? && i < j < |Canonicalised(r, infos).value|
    ensures
      var c := Canonicalised(r, infos).value;
      c[i].name != c[j].name && LessEq(c[i].name, c[j].name)
  {
    var m :| Canonicalisable(r, EntriesOf(infos), m);
    CanonicalisedIs(r, infos, m);
    SortedIncreases(Rebuilt(r, EntriesOf(infos), m).Keys);
  }

  // ----- the size of the canonical form -----

  lemma {:induction false} TotalReplaced(infos: seq<Info>, k: nat, x: Info)
    requires k < |infos|
    ensures TotalSize(infos[k := x]) + |infos[k].content| == TotalSize(infos) + |x.content|
  {
    TotalWithout(infos, k);
    TotalWithout(infos[k := x], k);
    assert infos[k := x][..k] + infos[k := x][k + 1..] == infos[..k] + infos[k + 1..];
  }

  lemma EntriesReplaced(infos: seq<Info>, k: nat, content: Bytes)
    requires NamesDiffer(infos) && k < |infos|
    ensures
      var name := infos[k].name;
      EntriesOf(infos[k := Info(name, content)]) == EntriesOf(infos)[name := content]
  {
    var name := infos[k].name;
    var b := infos[k := Info(name, content)];
    assert forall i :: 0 <= i < |infos| ==> b[i].name == infos[i].name;
    EntriesAre(infos);
    EntriesAre(b);
    var e := EntriesOf(infos)[name := content];
    forall x | x in b
      ensures x.name in e && e[x.name] == x.content
    {
      var i :| 0 <= i < |b| && b[i] == x;
      assert infos[i] in infos;
      if i != k {
        assert infos[if i < k then i else k].name != infos[if i < k then k else i].name;
      }
    }
    forall n | n in e
      ensures Includes(b, n)
    {
      if n == name {
        assert b[k].name == n;
      } else {
        assert Includes(infos, n);
        var i :| 0 <= i < |infos| && infos[i].name == n;
        assert b[i].name == n;
      }
    }
    ListsUnique(b, EntriesOf(b), e);
  }

  /** Archives with the same entries under different names are the same up to order. */
  lemma SameUpToOrder(a: seq<Info>, b: seq<Info>, entries: Entries)
    requires NamesDiffer(a) && NamesDiffer(b) && Lists(a, entries) && Lists(b, entries)
    ensures multiset(a) == multiset(b)
  {
    forall x
      ensures multiset(a)[x] == multiset(b)[x]
    {
      Once(a, x);
      Once(b, x);
      if x in a {
        ListedThere(a, b, entries, x);
      } else if x in b {
        ListedThere(b, a, entries, x);
      }
      assert x in multiset(a) <==> x in a;
      assert x in multiset(b) <==> x in b;
    }
  }

  lemma ListedThere(a: seq<Info>, b: seq<Info>, entries: Entries, x: Info)
    requires Lists(a, entries) && Lists(b, entries) && x in a
    ensures x in b
  {
    assert Includes(b, x.name);
    var i :| 0 <= i < |b| && b[i].name == x.name;
    assert b[i] in b && b[i] == x;
  }

  /** The RECORD that is written for an archive. */
  ghost function NewRecord(r: Rules, entries: Entries, metadata: string): Bytes
    requires metadata in entries
  {
    r.encode(RecordRows(r, entries[metadata := Normalise(entries[metadata])], r.recordOf(metadata)))
  }

  /** The size of the archive, with the two rewritten files in the place of the old ones. */
  ghost function CanonicalSize(r: Rules, infos: seq<Info>, metadata: string): int
    requires metadata in EntriesOf(infos) && r.recordOf(metadata) in EntriesOf(infos)
  {
    var entries := EntriesOf(infos);
    TotalSize(infos) - |entries[metadata]| - |entries[r.recordOf(metadata)]|
      + |Normalise(entries[metadata])| + |NewRecord(r, entries, metadata)|
  }

  lemma SizeReplaced(infos: seq<Info>, name: string, content: Bytes) returns (b: seq<Info>)
    requires NamesDiffer(infos) && name in EntriesOf(infos)
    ensures NamesDiffer(b) && EntriesOf(b) == EntriesOf(infos)[name := content]
    ensures TotalSize(b) + |EntriesOf(infos)[name]| == TotalSize(infos) + |content|
  {
    EntriesAre(infos);
    assert Includes(infos, name);
    var k :| 0 <= k < |infos| && infos[k].name == name;
    assert infos[k] in infos;
    b := infos[k := Info(name, content)];
    assert forall i :: 0 <= i < |infos| ==> b[i].name == infos[i].name;
    TotalReplaced(infos, k, Info(name, content));
    EntriesReplaced(infos, k, content);
  }

  lemma ListingSize(infos: seq<Info>)
    requires NamesDiffer(infos)
    ensures TotalSize(Listing(EntriesOf(infos))) == TotalSize(infos)
  {
    var e := EntriesOf(infos);
    EntriesAre(infos);
    ListingNames(e);
    ListingLists(e);
    SameUpToOrder(infos, Listing(e), e);
    TotalPermuted(infos, Listing(e));
  }

  lemma CanonicalSizeIs(r: Rules, infos: seq<Info>, metadata: string)
    requires Lawful(r) && Readable(r, infos) && Canonicalisable(r, EntriesOf(infos), metadata)
    ensures TotalSize(Listing(Rebuilt(r, EntriesOf(infos), metadata))) == CanonicalSize(r, infos, metadata)
  {
    var entries, record := EntriesOf(infos), r.recordOf(metadata);
    assert metadata in MetadataNames(r, entries);
    DistinctNamesDiffer(r, infos);
    var a := SizeReplaced(infos, metadata, Normalise(entries[metadata]));
    var b := SizeReplaced(a, record, NewRecord(r, entries, metadata));
    ListingSize(b);
  }

  /**
   The canonical form is its own canonical form, exactly when the archive with METADATA normalised and RECORD
   rebuilt is within the limit; it can exceed the limit because the rebuilt RECORD may be longer than the old.
   */
  lemma CanonicalFormIsFixedExactlyWhen(r: Rules, infos: seq<Info>, metadata: string)
    requires Lawful(r) && Readable(r, infos) && Canonicalisable(r, EntriesOf(infos), metadata)
    ensures Canonicalised(r, infos).Some?
    ensures
      var c := Canonicalised(r, infos).value;
      && TotalSize(c) == CanonicalSize(r, infos, metadata)
      && Canonicalised(r, c) == if CanonicalSize(r, infos, metadata) <= MAX_BYTES then Some(c) else None
  {
    var entries := EntriesOf(infos);
    CanonicalisedIs(r, infos, metadata);
    CanonicalSizeIs(r, infos, metadata);
    var e := Rebuilt(r, entries, metadata);
    RebuiltIs(r, entries, metadata);
    RebuiltAgain(r, entries, metadata);
    SameNamesReadable(r, infos, e);
    ListingEntries(e);
    if TotalSize(Listing(e)) <= MAX_BYTES {
      CanonicalisedIs(r, Listing(e), metadata);
    }
  }

  /** An archive of METADATA and an empty RECORD that just fits has a canonical form that does not. */
  lemma FullArchiveIsNotFixed(r: Rules, metadata: string, content: Bytes)
    requires Lawful(r) && r.isMetadata(metadata) && r.safe(metadata) && r.safe(r.recordOf(metadata))
    requires r.fold(metadata) != r.fold(r.recordOf(metadata))
    requires |content| == MAX_BYTES && CR !in content && r.utf8(content)
    requires forall rows :: r.encode(rows) != []
    ensures
      var c := Canonicalised(r, [Info(metadata, content), Info(r.recordOf(metadata), [])]);
      c.Some? && TotalSize(c.value) > MAX_BYTES && Canonicalised(r, c.value) == None
  {
    var record := r.recordOf(metadata);
    var a, b := Info(metadata, content), Info(record, []);
    PairSize(a, b);
    PairEntries(a, b);
    PlainIsKept(content);
    var entries := EntriesOf([a, b]);
    assert MetadataNames(r, entries) == {metadata};
    CanonicalisedIs(r, [a, b], metadata);
    var e := Rebuilt(r, entries, metadata);
    RebuiltIs(r, entries, metadata);
    ListingHolds(e, metadata, record);
    CanonicalFormIsFixedExactlyWhen(r, [a, b], metadata);
  }

  lemma PairSize(a: Info, b: Info)
    ensures TotalSize([a, b]) == |a.content| + |b.content|
  {
    assert [a, b][..1] == [a] && [a][..0] == [];
    assert TotalSize([a]) == |a.content|;
  }

  lemma PairEntries(a: Info, b: Info)
    requires a.name != b.name
    ensures EntriesOf([a, b]) == map[a.name := a.content, b.name := b.content]
  {
    assert [a, b][..1] == [a] && [a][..0] == [];
    assert EntriesOf([a]) == map[a.name := a.content];
  }

  /** An archive is at least as large as two of its entries. */
  lemma ListingHolds(e: Entries, x: string, y: string)
    requires x in e && y in e && x != y
    ensures TotalSize(Listing(e)) >= |e[x]| + |e[y]|
  {
    var l := Listing(e);
    ListingLists(e);
    assert Includes(l, x) && Includes(l, y);
    var i :| 0 <= i < |l| && l[i].name == x;
    var j :| 0 <= j < |l| && l[j].name == y;
    assert l[i] in l && l[j] in l;
    TotalWithout(l, i);
    var rest := l[..i] + l[i + 1..];
    TotalWithout(rest, if j < i then j else j - 1);
  }

  // ----- carriage returns in METADATA -----

  /** Contents that are normalised alike give the same rebuilt entries. */
  lemma RebuiltAlike(r: Rules, entries: Entries, metadata: string, content: Bytes)
    requires metadata in entries && Normalise(content) == Normalise(entries[metadata])
    ensures
      var other := entries[metadata := content];
      && Rebuilt(r, other, metadata) == Rebuilt(r, entries, metadata)
      && (Canonicalisable(r, other, metadata) <==> Canonicalisable(r, entries, metadata))
  {
    var other := entries[metadata := content];
    assert other[metadata := Normalise(content)] == entries[metadata := Normalise(content)];
    assert MetadataNames(r, other) == MetadataNames(r, entries);
  }

  lemma ReadableReplaced(r: Rules, infos: seq<Info>, k: nat, content: Bytes)
    requires k < |infos| && |content| >= |infos[k].content|
    ensures
      var b := infos[k := Info(infos[k].name, content)];
      Readable(r, b) <==> Readable(r, infos) && TotalSize(b) <= MAX_BYTES
  {
    var b := infos[k := Info(infos[k].name, content)];
    TotalReplaced(infos, k, Info(infos[k].name, content));
    assert forall i :: 0 <= i < |infos| ==> b[i].name == infos[i].name;
    assert DistinctNames(r, b) <==> DistinctNames(r, infos);
    assert AllSafe(r, b) <==> AllSafe(r, infos);
  }

  /**
   Carriage returns put before line feeds of a METADATA without any, however many and wherever, change
   neither the canonical form nor, within the size limit, whether there is one.
   */
  lemma CarriageReturnsDoNotMatter(r: Rules, infos: seq<Info>, k: nat, crs: nat -> nat)
    requires k < |infos| && r.isMetadata(infos[k].name) && CR !in infos[k].content
    ensures
      var b := infos[k := Info(infos[k].name, WithCrs(infos[k].content, crs, 0))];
      Canonicalised(r, b) == if TotalSize(b) <= MAX_BYTES then Canonicalised(r, infos) else None
  {
    var name, content := infos[k].name, WithCrs(infos[k].content, crs, 0);
    var b := infos[k := Info(name, content)];
    InsertedCrsVanish(infos[k].content, crs);
    ReadableReplaced(r, infos, k, content);
    if Readable(r, b) {
      DistinctNamesDiffer(r, infos);
      EntriesAre(infos);
      assert infos[k] in infos;
      EntriesReplaced(infos, k, content);
      CanonicalisableAlike(r, infos, b, name);
      RebuiltAlike(r, EntriesOf(infos), name, content);
    }
  }

  lemma CanonicalisableAlike(r: Rules, a: seq<Info>, b: seq<Info>, name: string)
    requires Readable(r, a) && Readable(r, b) && r.isMetadata(name)
    requires name in EntriesOf(a) && EntriesOf(a).Keys == EntriesOf(b).Keys
    ensures Canonicalised(r, a) ==
      if Canonicalisable(r, EntriesOf(a), name) then Some(Listing(Rebuilt(r, EntriesOf(a), name))) else None
    ensures Canonicalised(r, b) ==
      if Canonicalisable(r, EntriesOf(b), name) then Some(Listing(Rebuilt(r, EntriesOf(b), name))) else None
  {
    OnlyMetadata(r, a, name);
    OnlyMetadata(r, b, name);
  }

  lemma OnlyMetadata(r: Rules, a: seq<Info>, name: string)
    requires Readable(r, a) && r.isMetadata(name) && name in EntriesOf(a)
    ensures Canonicalised(r, a) ==
      if Canonicalisable(r, EntriesOf(a), name) then Some(Listing(Rebuilt(r, EntriesOf(a), name))) else None
  {
    if m :| Canonicalisable(r, EntriesOf(a), m) {
      assert name in MetadataNames(r, EntriesOf(a));
      assert m == name;
      CanonicalisedIs(r, a, name);
    }
  }
}
