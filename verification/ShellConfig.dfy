/**
 The shell configuration file as it is stored: _update_managed_block in src/vgen/cli/completion.py reads it
 in text mode, which turns every CR LF pair and every other CR into an LF, and writes LFs, but only when the
 decoded text changes.
 */
module ShellConfigs {
  import opened Common
  import opened ManagedBlock

  /** Reading in text mode. */
  function Decode(raw: string): string {
    if raw == "" then ""
    else if raw[0] != '\r' then [raw[0]] + Decode(raw[1..])
    else if |raw| > 1 && raw[1] == '\n' then "\n" + Decode(raw[2..])
    else "\n" + Decode(raw[1..])
  }

  /** What is stored after an update: nothing is written when the decoded text is already the new one. */
  function StoredUpdate(m: Markers, raw: string, block: string): Option<string> {
    var u := Update(m, Decode(raw), block);
    if u.Some? && u.value == Decode(raw) then Some(raw) else u
  }

  /** The update writes the file. */
  predicate Writes(m: Markers, raw: string, block: string) {
    var u := Update(m, Decode(raw), block);
    u.Some? && u.value != Decode(raw)
  }

  // ----- decoding -----

  lemma {:induction false} DecodedHasNoCr(raw: string)
    ensures '\r' !in Decode(raw) && |Decode(raw)| <= |raw|
  {
    if raw != "" {
      if raw[0] == '\r' && |raw| > 1 && raw[1] == '\n' {
        DecodedHasNoCr(raw[2..]);
      } else {
        DecodedHasNoCr(raw[1..]);
      }
    }
  }

  lemma {:induction false} PlainDecodes(raw: string)
    requires '\r' !in raw
    ensures Decode(raw) == raw
  {
    if raw != "" {
      assert raw[0] in raw;
      assert forall x :: x in raw[1..] ==> x in raw;
      PlainDecodes(raw[1..]);
      assert raw == [raw[0]] + raw[1..];
    }
  }

  /** Decoding changes exactly the texts that have a carriage return. */
  lemma DecodesToItselfExactlyWhen(raw: string)
    ensures Decode(raw) == raw <==> '\r' !in raw
  {
    DecodedHasNoCr(raw);
    if '\r' !in raw {
      PlainDecodes(raw);
    }
  }

  /** Where the first s decoded characters end in the stored text. */
  function RawCut(raw: string, s: nat): (r: nat)
    requires s <= |Decode(raw)|
    ensures r <= |raw|
  {
    if s == 0 then 0
    else if raw[0] == '\r' && |raw| > 1 && raw[1] == '\n' then 2 + RawCut(raw[2..], s - 1)
    else 1 + RawCut(raw[1..], s - 1)
  }

  predicate StartsWithPair(raw: string) {
    |raw| > 1 && raw[0] == '\r' && raw[1] == '\n'
  }

  lemma DecodePair(rest: string)
    ensures Decode("\r\n" + rest) == "\n" + Decode(rest)
  {
    assert ("\r\n" + rest)[2..] == rest;
  }

  lemma DecodeOne(c: char, rest: string)
    requires !StartsWithPair([c] + rest)
    ensures Decode([c] + rest) == [if c == '\r' then '\n' else c] + Decode(rest)
  {
    assert ([c] + rest)[1..] == rest;
  }

  /** The two parts of a text decode to the two parts of its decoding. */
  predicate CutsAt(raw: string, r: nat, s: nat) {
    && r <= |raw| && s <= |Decode(raw)|
    && Decode(raw[..r]) == Decode(raw)[..s] && Decode(raw[r..]) == Decode(raw)[s..]
  }

  lemma CutPair(rest: string, r: nat, s: nat)
    requires CutsAt(rest, r, s)
    ensures CutsAt("\r\n" + rest, 2 + r, 1 + s)
  {
    var raw := "\r\n" + rest;
    DecodePair(rest);
    DecodePair(rest[..r]);
    assert raw[..2 + r] == "\r\n" + rest[..r] && raw[2 + r..] == rest[r..];
  }

  lemma CutOne(c: char, rest: string, r: nat, s: nat)
    requires CutsAt(rest, r, s) && !StartsWithPair([c] + rest)
    ensures CutsAt([c] + rest, 1 + r, 1 + s)
  {
    var raw := [c] + rest;
    DecodeOne(c, rest);
    DecodeOne(c, rest[..r]);
    assert raw[..1 + r] == [c] + rest[..r] && raw[1 + r..] == rest[r..];
  }

  lemma {:induction false} CutDecodes(raw: string, s: nat)
    requires s <= |Decode(raw)|
    ensures CutsAt(raw, RawCut(raw, s), s)
  {
    if s == 0 {
      assert raw[..0] == "" && raw[0..] == raw;
    } else if StartsWithPair(raw) {
      assert raw == "\r\n" + raw[2..];
      CutDecodes(raw[2..], s - 1);
      CutPair(raw[2..], RawCut(raw[2..], s - 1), s - 1);
    } else {
      assert raw == [raw[0]] + raw[1..];
      CutDecodes(raw[1..], s - 1);
      CutOne(raw[0], raw[1..], RawCut(raw[1..], s - 1), s - 1);
    }
  }

  /** Decoding goes part by part, unless the cut is inside a CR LF pair. */
  lemma {:induction false} PartsDecode(a: string, b: string)
    requires a == "" || a[|a| - 1] != '\r' || b == "" || b[0] != '\n'
    ensures Decode(a + b) == Decode(a) + Decode(b)
  {
    if a == "" {
      assert a + b == b;
    } else if StartsWithPair(a) {
      assert (a + b)[2..] == a[2..] + b;
      PartsDecode(a[2..], b);
    } else {
      assert (a + b)[1..] == a[1..] + b && (a + b)[0] == a[0];
      PartsDecode(a[1..], b);
    }
  }

  lemma {:induction false} LastDecodes(raw: string)
    requires raw != "" && raw[|raw| - 1] == '\r'
    ensures Decode(raw) != "" && Decode(raw)[|Decode(raw)| - 1] == '\n'
  {
    if |raw| == 1 {
      assert Decode(raw) == "\n" + Decode(raw[1..]);
      assert raw[1..] == "";
    } else if raw[0] == '\r' && raw[1] == '\n' {
      LastDecodes(raw[2..]);
    } else {
      LastDecodes(raw[1..]);
    }
  }

  // ----- what is outside the block -----

  /** The stored text before the block: what decodes to Before. */
  function StoredBefore(m: Markers, raw: string): string
    requires !Incomplete(m, Decode(raw))
  {
    var start := Find(Decode(raw), m.start);
    if start >= 0 then raw[..RawCut(raw, start)] else raw + Separator(Decode(raw))
  }

  function StoredAfter(m: Markers, raw: string): string
    requires !Incomplete(m, Decode(raw))
  {
    var end := Find(Decode(raw), m.end);
    if end >= 0 then raw[RawCut(raw, end + |m.end|)..] else "\n"
  }

  lemma AppendedDecodes(raw: string)
    ensures Decode(raw + Separator(Decode(raw))) == Decode(raw) + Separator(Decode(raw))
  {
    var t := Decode(raw);
    if Separator(t) == "" {
      assert raw + "" == raw && t + "" == t;
    } else {
      if raw[|raw| - 1] == '\r' {
        LastDecodes(raw);
      }
      PartsDecode(raw, "\n");
      PlainDecodes("\n");
    }
  }

  lemma StoredParts(m: Markers, raw: string)
    requires !Incomplete(m, Decode(raw))
    ensures Decode(StoredBefore(m, raw)) == Before(m, Decode(raw))
    ensures Decode(StoredAfter(m, raw)) == After(m, Decode(raw))
  {
    var start, end := Find(Decode(raw), m.start), Find(Decode(raw), m.end);
    if start >= 0 {
      CutDecodes(raw, start);
      CutDecodes(raw, end + |m.end|);
    } else {
      PlainDecodes("\n");
      AppendedDecodes(raw);
    }
  }

  lemma SameSurroundings(p: string, q: string, p': string, q': string, block: string)
    requires |p'| <= |p| && |q'| <= |q|
    ensures p' + block + q' == p + block + q <==> p' == p && q' == q
  {
    var a, b := p' + block + q', p + block + q;
    if a == b {
      assert |p'| == |p| && |q'| == |q|;
      assert a[..|p'|] == p' && b[..|p|] == p;
      assert a[|p'| + |block|..] == q' && b[|p| + |block|..] == q;
    }
  }

  /** The stored file is the block between what was stored before and after it. */
  predicate OutsideKept(m: Markers, raw: string, block: string)
    requires !Incomplete(m, Decode(raw))
  {
    StoredUpdate(m, raw, block) == Some(StoredBefore(m, raw) + block + StoredAfter(m, raw))
  }

  /**
   An update that writes the file leaves the stored text outside the block as it was, exactly when that text has no
   carriage return; an update that writes nothing leaves the whole file.
   */
  lemma OutsideKeptExactlyWhen(m: Markers, raw: string, block: string)
    requires !Incomplete(m, Decode(raw))
    ensures !Writes(m, raw, block) ==> StoredUpdate(m, raw, block) == Some(raw)
    ensures Writes(m, raw, block) ==>
      (OutsideKept(m, raw, block) <==> '\r' !in StoredBefore(m, raw) && '\r' !in StoredAfter(m, raw))
  {
    var p, q := StoredBefore(m, raw), StoredAfter(m, raw);
    UpdateReplaces(m, Decode(raw), block);
    StoredParts(m, raw);
    DecodedHasNoCr(p);
    DecodedHasNoCr(q);
    DecodesToItselfExactlyWhen(p);
    DecodesToItselfExactlyWhen(q);
    SameSurroundings(p, q, Decode(p), Decode(q), block);
  }

  // ----- two updates -----

  /** A block between texts without carriage returns decodes in its place. */
  lemma BlockDecodes(m: Markers, a: string, block: string, z: string)
    requires Distinctive(m) && IsBlock(m, block) && '\r' !in a && '\r' !in z
    ensures Decode(a + block + z) == a + Decode(block) + z
  {
    var k := |block| - |m.end|;
    OccursChars(block, m.end, k);
    assert block[|block| - 1] == m.end[|m.end| - 1];
    PartsDecode(a + block, z);
    PartsDecode(a, block);
    PlainDecodes(a);
    PlainDecodes(z);
    assert block != "" && (a + block)[|a + block| - 1] == block[|block| - 1];
  }

  lemma StartDecodes(p: string, block: string)
    requires LineMarker(p) && OccursAt(block, p, 0)
    ensures OccursAt(Decode(block), p, 0)
  {
    var tail := block[|p|..];
    assert block == block[0..0 + |p|] + tail;
    PartsDecode(p, tail);
    PlainDecodes(p);
    assert (p + Decode(tail))[0..0 + |p|] == p;
  }

  lemma EndDecodes(p: string, block: string)
    requires LineMarker(p) && |p| <= |block| && OccursAt(block, p, |block| - |p|)
    ensures |p| <= |Decode(block)| && OccursAt(Decode(block), p, |Decode(block)| - |p|)
  {
    var k := |block| - |p|;
    var head := block[..k];
    assert block == head + block[k..k + |p|];
    PartsDecode(head, p);
    PlainDecodes(p);
    assert (Decode(head) + p)[|Decode(head)|..] == p;
  }

  /** A block decodes to a block. */
  lemma DecodedIsBlock(m: Markers, block: string)
    requires Distinctive(m) && IsBlock(m, block)
    ensures IsBlock(m, Decode(block))
  {
    StartDecodes(m.start, block);
    EndDecodes(m.end, block);
  }

  /** What the next reading of the file sees is the text updated with the decoded block, written or not. */
  lemma StoredDecodes(m: Markers, raw: string, block: string)
    requires Distinctive(m) && IsBlock(m, block) && Update(m, Decode(raw), block).Some?
    ensures StoredUpdate(m, raw, block).Some?
    ensures Some(Decode(StoredUpdate(m, raw, block).value)) == Update(m, Decode(raw), Decode(block))
  {
    var t := Decode(raw);
    DecodedHasNoCr(raw);
    UpdateReplaces(m, t, block);
    UpdateReplaces(m, t, Decode(block));
    NoCrOutside(m, t);
    BlockDecodes(m, Before(m, t), block, After(m, t));
    PlainDecodes(t);
  }

  lemma NoCrOutside(m: Markers, t: string)
    requires '\r' !in t && !Incomplete(m, t)
    ensures '\r' !in Before(m, t) && '\r' !in After(m, t)
  {
  }

  /**
   Going by way of the first block stores the same bytes: it wrote nothing, or what either way leaves
   unwritten is the same.
   */
  predicate SameBytes(m: Markers, raw: string, first: string, second: string)
    requires Update(m, Decode(raw), first).Some?
  {
    if !Writes(m, raw, first) then true
    else if Decode(first) != second then Writes(m, raw, second) || '\r' !in raw
    else if Writes(m, raw, second) then '\r' !in first
    else raw == Update(m, Decode(raw), first).value
  }

  /**
   On the stored file, updating with one block and then another is updating with the second alone, exactly when
   the first is read back with its end marker only at its end and the same bytes are stored.
   */
  lemma SecondStoredUpdateWinsExactlyWhen(m: Markers, raw: string, first: string, second: string)
    requires Distinctive(m) && Update(m, Decode(raw), first).Some? && IsBlock(m, first)
    ensures StoredUpdate(m, raw, first).Some?
    ensures StoredUpdate(m, StoredUpdate(m, raw, first).value, second) == StoredUpdate(m, raw, second) <==>
      Find(Decode(first), m.end) == |Decode(first)| - |m.end| && SameBytes(m, raw, first, second)
  {
    var t, d := Decode(raw), Decode(first);
    StoredDecodes(m, raw, first);
    DecodedIsBlock(m, first);
    SecondUpdateWinsExactlyWhen(m, t, d, second);
    if Find(d, m.end) != |d| - |m.end| {
      DifferDecoded(m, raw, first, second);
    } else {
      SameTexts(m, raw, first, second);
    }
  }

  /** Both ways the decoded text is the same; the stored one depends on what is left unwritten. */
  lemma SameTexts(m: Markers, raw: string, first: string, second: string)
    requires Distinctive(m) && Update(m, Decode(raw), first).Some? && IsBlock(m, first)
    requires StoredUpdate(m, raw, first).Some?
    requires Some(Decode(StoredUpdate(m, raw, first).value)) == Update(m, Decode(raw), Decode(first))
    requires Update(m, Update(m, Decode(raw), Decode(first)).value, second) == Update(m, Decode(raw), second)
    ensures StoredUpdate(m, StoredUpdate(m, raw, first).value, second) == StoredUpdate(m, raw, second) <==>
      SameBytes(m, raw, first, second)
  {
    var t, raw1 := Decode(raw), StoredUpdate(m, raw, first).value;
    DecodesToItselfExactlyWhen(raw);
    DecodesToItselfExactlyWhen(raw1);
    UpdateReplaces(m, t, first);
    UpdateReplaces(m, t, Decode(first));
    UpdateReplaces(m, t, second);
    BlockOnly(Before(m, t), Decode(first), second, After(m, t));
    DecodedHasNoCr(raw);
    NoCrOutside(m, t);
    CrInBlock(Before(m, t), first, After(m, t));
  }

  lemma BlockOnly(a: string, b: string, b': string, z: string)
    ensures a + b + z == a + b' + z <==> b == b'
  {
    if a + b + z == a + b' + z {
      assert |b| == |b'|;
      assert (a + b + z)[|a|..|a| + |b|] == b && (a + b' + z)[|a|..|a| + |b'|] == b';
    }
  }

  lemma DifferDecoded(m: Markers, raw: string, first: string, second: string)
    requires Distinctive(m) && Update(m, Decode(raw), first).Some? && IsBlock(m, first) && IsBlock(m, Decode(first))
    requires Update(m, Update(m, Decode(raw), Decode(first)).value, second) != Update(m, Decode(raw), second)
    ensures StoredUpdate(m, raw, first).Some?
    ensures StoredUpdate(m, StoredUpdate(m, raw, first).value, second) != StoredUpdate(m, raw, second)
  {
    var t := Decode(raw);
    StoredDecodes(m, raw, first);
    var raw1 := StoredUpdate(m, raw, first).value;
    UpdateReplaces(m, t, second);
    SecondUpdateWinsExactlyWhen(m, t, Decode(first), second);
    UpdateReplaces(m, Decode(raw1), second);
    DecodedHasNoCr(raw);
    DecodedHasNoCr(raw1);
    NoCrOutside(m, t);
    NoCrOutside(m, Decode(raw1));
    CrInBlock(Before(m, t), second, After(m, t));
    CrInBlock(Before(m, Decode(raw1)), second, After(m, Decode(raw1)));
    PlainUpdate(m, raw, second);
    PlainUpdate(m, raw1, second);
  }

  /** A block without carriage returns is read back as it is, also when it was not written. */
  lemma PlainUpdate(m: Markers, raw: string, block: string)
    requires Update(m, Decode(raw), block).Some?
    ensures '\r' !in Update(m, Decode(raw), block).value ==>
      Decode(StoredUpdate(m, raw, block).value) == Update(m, Decode(raw), block).value
  {
    DecodesToItselfExactlyWhen(Update(m, Decode(raw), block).value);
  }

  lemma CrInBlock(a: string, b: string, z: string)
    requires '\r' !in a && '\r' !in z
    ensures '\r' in a + b + z <==> '\r' in b
  {
    if '\r' in b {
      var i :| 0 <= i < |b| && b[i] == '\r';
      assert (a + b + z)[|a| + i] == '\r';
    }
  }

  // ----- two files -----

  /** A configuration of one CR LF line loses its carriage return to the first installation. */
  lemma CarriageReturnIsLost(m: Markers, block: string)
    requires Distinctive(m)
    ensures StoredUpdate(m, "\r\n", block) == Some("\n" + block + "\n")
  {
    OneLine(m.start);
    OneLine(m.end);
    DecodePair("");
    assert "\r\n" + "" == "\r\n";
    assert "\n" + "" == "\n";
    assert |"\n" + block + "\n"| > 1;
  }

  lemma OneLine(p: string)
    requires LineMarker(p)
    ensures Find("\n", p) == -1 && forall j: nat :: !OccursAt("\n", p, j)
  {
    assert "" + "\n" == "\n";
    forall j: nat
      ensures !OccursAt("\n", p, j)
    {
      if OccursAt("\n", p, j) {
        NoLineStraddle("", p, j);
      }
    }
  }

  /**
   A file with CR LF lines that holds a block keeps them when the block is written again, and loses them when
   another block is written in between.
   */
  lemma RewritingThereAndBack(m: Markers, first: string, second: string)
    requires Distinctive(m) && IsBlock(m, first) && IsBlock(m, second) && first != second
    requires '\r' !in first && '\r' !in second
    requires Find(first, m.end) == |first| - |m.end| && Find(second, m.end) == |second| - |m.end|
    ensures
      var raw := "\r\n" + second;
      && StoredUpdate(m, raw, second) == Some(raw)
      && StoredUpdate(m, raw, first).Some?
      && StoredUpdate(m, StoredUpdate(m, raw, first).value, second) != Some(raw)
  {
    var raw := "\r\n" + second;
    DecodePair(second);
    PlainDecodes(second);
    HeldBlock(m, second, second);
    HeldBlock(m, second, first);
    PlainDecodes(first);
    assert '\r' == raw[0];
    SecondStoredUpdateWinsExactlyWhen(m, raw, first, second);
  }

  /** A text of one empty line and a block has that block replaced. */
  lemma HeldBlock(m: Markers, held: string, block: string)
    requires Distinctive(m) && IsBlock(m, held) && Find(held, m.end) == |held| - |m.end|
    ensures Update(m, "\n" + held, block) == Some("\n" + block)
    ensures "\n" + block == "\n" + held ==> block == held
  {
    OneLine(m.start);
    OneLine(m.end);
    assert held[0] == held[0..|m.start|][0] == m.start[0];
    FindIs(held, m.start, 0);
    FirstAfter("\n", held, "", m.start, 0);
    FirstAfter("\n", held, "", m.end, Find(held, m.end));
    UpdateAt(m, "\n", held, "", Find(held, m.end), block);
    assert "\n" + held + "" == "\n" + held && held[|held|..] + "" == "" && "\n" + block + "" == "\n" + block;
    assert ("\n" + block)[1..] == block && ("\n" + held)[1..] == held;
  }

  // ----- the file -----

  datatype File = Missing | Regular(raw: string) | NotRegular

  class ShellConfig {
    var file: File

    constructor (file: File)
      ensures this.file == file
    {
      this.file := file;
    }

    /** The decoded text of a missing file is empty. */
    static function TextOf(file: File): string {
      if file.Regular? then Decode(file.raw) else ""
    }

    method UpdateManagedBlock(block: string) returns (ok: bool)
      modifies this
      ensures ok <==> !old(file).NotRegular? && !Incomplete(MARKERS, TextOf(old(file)))
      ensures ok && old(file).Missing? ==> file == Regular(block + "\n")
      ensures ok && old(file).Regular? ==>
        file.Regular? && Some(file.raw) == StoredUpdate(MARKERS, old(file).raw, block)
      ensures !ok ==> file == old(file)
    {
      if file.NotRegular? {
        return false;
      }
      var existing := TextOf(file);
      var start := Find(existing, START);
      var end := Find(existing, END);
      if (start < 0) != (end < 0) || (start >= 0 && end < start) {
        return false;
      }
      var updated;
      if start >= 0 {
        end := end + |END|;
        updated := existing[..start] + block + existing[end..];
      } else {
        var separator := if existing == "" || existing[|existing| - 1] == '\n' then "" else "\n";
        updated := existing + separator + block + "\n";
      }
      if file.Missing? {
        NoMarkerInNothing();
      }
      if updated != existing {
        file := Regular(updated);
      }
      return true;
    }
  }

  lemma NoMarkerInNothing()
    ensures Find("", START) == -1 && Find("", END) == -1
  {
  }
}
