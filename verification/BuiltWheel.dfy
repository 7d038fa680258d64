/**
 The wheel file that _canonicalize_built_wheel reads, checks and replaces.
 */
module BuiltWheels {
  import opened Common
  import opened Newlines
  import opened Ordering
  import opened WheelCanonical

  ghost predicate FoldsAre(r: Rules, infos: seq<Info>, folded: set<string>) {
    && (forall i :: 0 <= i < |infos| ==> r.fold(infos[i].name) in folded)
    && (forall key :: key in folded ==> exists i :: 0 <= i < |infos| && r.fold(infos[i].name) == key)
  }

  /** What has been read so far passed every check. */
  ghost predicate ReadSoFar(r: Rules, infos: seq<Info>, entries: Entries, folded: set<string>, total: nat) {
    && AllSafe(r, infos) && DistinctNames(r, infos)
    && entries == EntriesOf(infos) && FoldsAre(r, infos, folded) && total == TotalSize(infos)
  }

  lemma FrontIsRead(r: Rules, front: seq<Info>, x: Info)
    requires AllSafe(r, front + [x]) && DistinctNames(r, front + [x])
    ensures r.safe(x.name) && x.name !in EntriesOf(front)
    ensures forall i :: 0 <= i < |front| ==> r.fold(front[i].name) != r.fold(x.name)
    ensures TotalSize(front + [x]) == TotalSize(front) + |x.content|
  {
    var all := front + [x];
    assert all[|front|] == x && all[..|front|] == front;
    assert forall i :: 0 <= i < |front| ==> all[i] == front[i];
    DistinctNamesDiffer(r, all);
    FrontDiffers(front, x);
    EntriesAre(front);
    assert x.name in EntriesOf(front) ==> Includes(front, x.name);
  }

  lemma Reads(r: Rules, front: seq<Info>, x: Info, folded: set<string>)
    requires AllSafe(r, front) && DistinctNames(r, front) && FoldsAre(r, front, folded)
    requires r.safe(x.name) && r.fold(x.name) !in folded
    ensures ReadSoFar(r, front + [x], EntriesOf(front)[x.name := x.content], folded + {r.fold(x.name)},
                      TotalSize(front) + |x.content|)
  {
    var all := front + [x];
    assert all[..|front|] == front && all[|front|] == x;
    assert forall i :: 0 <= i < |front| ==> all[i] == front[i];
    forall key | key in folded + {r.fold(x.name)}
      ensures exists i :: 0 <= i < |all| && r.fold(all[i].name) == key
    {
      if key == r.fold(x.name) {
        assert r.fold(all[|front|].name) == key;
      } else {
        var i :| 0 <= i < |front| && r.fold(front[i].name) == key;
        assert r.fold(all[i].name) == key;
      }
    }
  }

  lemma {:induction false} TotalGrows(infos: seq<Info>, k: nat)
    requires k <= |infos|
    ensures TotalSize(infos[..k]) <= TotalSize(infos)
  {
    if k < |infos| {
      TotalGrows(infos[..|infos| - 1], k);
      assert infos[..|infos| - 1][..k] == infos[..k];
    } else {
      assert infos[..k] == infos;
    }
  }

  /** Every refusal while reading is a refusal of the whole archive. */
  lemma Refuses(r: Rules, infos: seq<Info>, k: nat, folded: set<string>)
    requires k < |infos| && FoldsAre(r, infos[..k], folded)
    requires !r.safe(infos[k].name) || infos[k].name in EntriesOf(infos[..k]) || r.fold(infos[k].name) in folded
      || TotalSize(infos[..k]) + |infos[k].content| > MAX_BYTES
    ensures !Readable(r, infos)
  {
    if Readable(r, infos) {
      assert infos[..k + 1] == infos[..k] + [infos[k]];
      FrontIsRead(r, infos[..k], infos[k]);
      TotalGrows(infos, k + 1);
    }
  }

  /** The loop over the archive's entries. */
  method ReadEntries(r: Rules, infos: seq<Info>) returns (entries: Option<Entries>)
    ensures entries == if Readable(r, infos) then Some(EntriesOf(infos)) else None
  {
    if infos == [] || |infos| > MAX_ENTRIES {
      return None;
    }
    var read: Entries, folded: set<string>, total: nat := map[], {}, 0;
    for k := 0 to |infos|
      invariant ReadSoFar(r, infos[..k], read, folded, total) && total <= MAX_BYTES
    {
      var info := infos[k];
      var key := r.fold(info.name);
      if !r.safe(info.name) || info.name in read || key in folded || total + |info.content| > MAX_BYTES {
        Refuses(r, infos, k, folded);
        return None;
      }
      Reads(r, infos[..k], info, folded);
      assert infos[..k + 1] == infos[..k] + [info];
      total := total + |info.content|;
      read := read[info.name := info.content];
      folded := folded + {key};
    }
    assert infos[..|infos|] == infos;
    return Some(read);
  }

  method RowsFor(r: Rules, entries: Entries, names: seq<string>) returns (rows: seq<Row>)
    requires forall i :: 0 <= i < |names| ==> names[i] in entries
    ensures rows == Rows(r, entries, names)
  {
    rows := [];
    for i := 0 to |names|
      invariant |rows| == i && forall k :: 0 <= k < i ==> rows[k] == RowOf(r, entries, names[k])
    {
      rows := rows + [RowOf(r, entries, names[i])];
    }
  }

  /** The new RECORD: a row for every other entry, and one for itself. */
  method WriteRecord(r: Rules, entries: Entries, record: string) returns (rows: seq<Row>)
    ensures rows == RecordRows(r, entries, record)
  {
    var names := SortNames(entries.Keys - {record});
    assert forall i :: 0 <= i < |names| ==> names[i] in names;
    rows := RowsFor(r, entries, names);
    rows := rows + [Row(record, "", None)];
  }

  method InfosFor(entries: Entries, names: seq<string>) returns (infos: seq<Info>)
    requires forall i :: 0 <= i < |names| ==> names[i] in entries
    ensures |infos| == |names|
    ensures forall i :: 0 <= i < |names| ==> infos[i] == Info(names[i], entries[names[i]])
  {
    infos := [];
    for i := 0 to |names|
      invariant |infos| == i && forall k :: 0 <= k < i ==> infos[k] == Info(names[k], entries[names[k]])
    {
      infos := infos + [Info(names[i], entries[names[i]])];
    }
  }

  /** The new archive: the entries in the order of their names. */
  method WriteArchive(entries: Entries) returns (infos: seq<Info>)
    ensures infos == Listing(entries)
  {
    var names := SortNames(entries.Keys);
    assert forall i :: 0 <= i < |names| ==> names[i] in names;
    infos := InfosFor(entries, names);
  }

  class BuiltWheel {
    var infos: seq<Info>
    var comment: Bytes

    constructor (infos: seq<Info>, comment: Bytes)
      ensures this.infos == infos && this.comment == comment
    {
      this.infos, this.comment := infos, comment;
    }

    method Canonicalize(r: Rules) returns (ok: bool)
      modifies this
      ensures ok <==> old(comment) == [] && Canonicalised(r, old(infos)).Some?
      ensures ok ==> infos == Canonicalised(r, old(infos)).value && comment == []
      ensures !ok ==> unchanged(this)
    {
      if comment != [] {
        return false;
      }
      var read := ReadEntries(r, infos);
      if read.None? {
        return false;
      }
      var entries := read.value;
      var metadataNames := MetadataNames(r, entries);
      if |metadataNames| != 1 {
        assert forall m :: !Canonicalisable(r, entries, m);
        return false;
      }
      var metadata :| metadata in metadataNames;
      OnlyOne(metadataNames, metadata);
      var record := r.recordOf(metadata);
      if record !in entries {
        return false;
      }
      var normalised := Normalise(entries[metadata]);
      if !r.utf8(normalised) {
        return false;
      }
      CanonicalisedIs(r, infos, metadata);
      entries := entries[metadata := normalised];
      var rows := WriteRecord(r, entries, record);
      entries := entries[record := r.encode(rows)];
      infos := WriteArchive(entries);
      return true;
    }
  }

  lemma OnlyOne(s: set<string>, x: string)
    requires |s| == 1 && x in s
    ensures s == {x}
  {
    assert |s - {x}| == 0;
    assert s - {x} == {};
  }
}
