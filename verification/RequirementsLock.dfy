/**
 The requirements lock: printed by src/vgen/cli/worker_bundle.py from the validated wheels, parsed
 back by tools/build_public_release.py before a release is published.
 */
module RequirementsLock {
  import opened Common
  import opened Ordering
  import opened PackageNames
  import opened Wheelhouse

  /** The fixed texts of the lock: its comment line, the hash option, and vgen with its Worker extra. */
  datatype Format = Format(header: string, hash: string, root: string, extra: string)

  const LOCK := Format(
    "# Generated from the " + "reviewed Windows " + "Worker wheelhouse; " + "do not edit.",
    " --hash=sha256:",
    ROOT,
    ROOT_EXTRA)

  const DIGEST_LENGTH := 64

  predicate IsHex(c: char) {
    '0' <= c <= '9' || 'a' <= c <= 'f'
  }

  predicate DigestText(s: string) {
    |s| == DIGEST_LENGTH && forall i :: 0 <= i < |s| ==> IsHex(s[i])
  }

  /** The characters of str(packaging.version.Version). */
  predicate VersionText(s: string) {
    s != [] && forall i :: 0 <= i < |s| ==> IsLower(s[i]) || s[i] == '.' || s[i] == '+' || s[i] == '!'
  }

  // ----- printing -----

  /** The requirement part of a line; vgen is locked with its Worker extra. */
  function RequirementText(f: Format, w: Wheel): string {
    if w.distribution == f.root then f.root + "[" + f.extra + "]==" + w.version
    else w.distribution + "==" + w.version
  }

  function Line(f: Format, w: Wheel): string {
    RequirementText(f, w) + f.hash + w.sha256
  }

  function Unlines(lines: seq<string>): string {
    if lines == [] then "" else lines[0] + "\n" + Unlines(lines[1..])
  }

  function Lines(f: Format, house: House, ds: seq<string>): seq<string>
    requires forall d :: d in ds ==> d in house
  {
    if ds == [] then [f.header] else Lines(f, house, ds[..|ds| - 1]) + [Line(f, house[ds[|ds| - 1]])]
  }

  ghost function LockLines(f: Format, house: House): seq<string> {
    Lines(f, house, Sorted(house.Keys))
  }

  ghost function LockText(f: Format, house: House): string {
    Unlines(LockLines(f, house))
  }

  /** The printing loop: distributions in increasing order. */
  method PrintLock(f: Format, house: House) returns (text: string)
    ensures text == LockText(f, house)
  {
    var lines := CollectLines(f, house);
    text := "";
    var k := |lines|;
    while k > 0
      invariant 0 <= k <= |lines|
      invariant text == Unlines(lines[k..])
    {
      k := k - 1;
      assert lines[k..][1..] == lines[k + 1..];
      text := lines[k] + "\n" + text;
    }
    assert lines[0..] == lines;
  }

  method CollectLines(f: Format, house: House) returns (lines: seq<string>)
    ensures lines == LockLines(f, house)
  {
    var names := SortNames(house.Keys);
    lines := LinesFor(f, house, names);
  }

  method LinesFor(f: Format, house: House, names: seq<string>) returns (lines: seq<string>)
    requires forall d :: d in names ==> d in house
    ensures lines == Lines(f, house, names)
  {
    lines := [f.header];
    for i := 0 to |names|
      invariant lines == Lines(f, house, names[..i])
    {
      LinesNext(f, house, names, i);
      lines := lines + [Line(f, house[names[i]])];
    }
    assert names[..|names|] == names;
  }

  lemma LinesSnoc(f: Format, house: House, ds: seq<string>, d: string)
    requires d in house && forall e :: e in ds ==> e in house
    ensures Lines(f, house, ds + [d]) == Lines(f, house, ds) + [Line(f, house[d])]
  {
    assert (ds + [d])[..|ds|] == ds;
  }

  lemma LinesNext(f: Format, house: House, names: seq<string>, i: nat)
    requires i < |names| && forall d :: d in names ==> d in house
    ensures names[i] in house
    ensures Lines(f, house, names[..i + 1]) == Lines(f, house, names[..i]) + [Line(f, house[names[i]])]
  {
    assert names[i] in names && names[..i + 1] == names[..i] + [names[i]];
    LinesSnoc(f, house, names[..i], names[i]);
  }

  // ----- parsing -----

  /** The ASCII characters at which str.splitlines breaks. */
  predicate IsBreak(c: char) {
    10 <= c as int <= 13 || 28 <= c as int <= 30
  }

  /** The ASCII characters that str.strip removes. */
  predicate IsSpace(c: char) {
    9 <= c as int <= 13 || 28 <= c as int <= 32
  }

  function LineLength(t: string): (n: nat)
    ensures n <= |t| && (n < |t| ==> IsBreak(t[n]))
    ensures forall i :: 0 <= i < n ==> !IsBreak(t[i])
  {
    if t == [] || IsBreak(t[0]) then 0 else 1 + LineLength(t[1..])
  }

  function SplitLines(t: string): seq<string>
    decreases |t|
  {
    if t == [] then []
    else
      var n := LineLength(t);
      if n == |t| then [t]
      else
        var skip := if t[n] == '\r' && n + 1 < |t| && t[n + 1] == '\n' then 2 else 1;
        [t[..n]] + SplitLines(t[n + skip..])
  }

  function StripLeft(s: string): string {
    if s != [] && IsSpace(s[0]) then StripLeft(s[1..]) else s
  }

  function StripRight(s: string): string {
    if s != [] && IsSpace(s[|s| - 1]) then StripRight(s[..|s| - 1]) else s
  }

  function NameLength(s: string): (n: nat)
    ensures n <= |s|
  {
    if s != [] && (IsAlnum(s[0]) || IsSeparator(s[0])) then 1 + NameLength(s[1..]) else 0
  }

  datatype Pin = Pin(version: string, digest: string)

  /** name==version or name[extra]==version, as packaging reads it. */
  datatype Pinned = Pinned(name: string, extra: string, version: string)

  function ParsePinned(s: string): Option<Pinned> {
    var n := NameLength(s);
    if ValidName(s[..n]) then ParseTail(s[..n], s[n..]) else None
  }

  /** What follows the name: an extra in brackets, if any, and the version. */
  function ParseTail(name: string, s: string): Option<Pinned> {
    if s != "" && s[0] == '[' then ParseBracket(name, s[1..]) else ParseVersion(name, "", s)
  }

  function ParseBracket(name: string, s: string): Option<Pinned> {
    var k := BracketLength(s);
    if k < |s| then ParseVersion(name, s[..k], s[k + 1..]) else None
  }

  /** How many characters come before the closing bracket. */
  function BracketLength(s: string): (n: nat)
    ensures n <= |s|
  {
    if s == [] || s[0] == ']' then 0 else 1 + BracketLength(s[1..])
  }

  function ParseVersion(name: string, extra: string, s: string): Option<Pinned> {
    if |s| > 2 && s[..2] == "==" && VersionText(s[2..]) then Some(Pinned(name, extra, s[2..])) else None
  }

  /** One line: re.fullmatch of a requirement, the hash option and 64 hexadecimal digits. */
  function ParseLine(f: Format, line: string): Option<(string, Pin)> {
    var n := |line| - DIGEST_LENGTH - |f.hash|;
    if n <= 0 || line[n..n + |f.hash|] != f.hash || !DigestText(line[n + |f.hash|..]) then None
    else PinOf(f, ParsePinned(line[..n]), line[n + |f.hash|..])
  }

  /** vgen must come with its Worker extra, and nothing else with any. */
  function PinOf(f: Format, p: Option<Pinned>, digest: string): Option<(string, Pin)> {
    if p.None? then None
    else
      var name := Canonical(p.value.name);
      if p.value.extra != (if name == f.root then f.extra else "") then None
      else Some((name, Pin(p.value.version, digest)))
  }

  /** The lines so far, as a dictionary; None once a line is refused. */
  function ParseLines(f: Format, lines: seq<string>): Option<map<string, Pin>> {
    if lines == [] then Some(map[])
    else
      var before := ParseLines(f, lines[..|lines| - 1]);
      if before.None? then None else AddLine(f, before.value, lines[|lines| - 1])
  }

  function AddLine(f: Format, locked: map<string, Pin>, raw: string): Option<map<string, Pin>> {
    var line := StripRight(StripLeft(raw));
    if line == "" || line[0] == '#' then Some(locked)
    else
      var p := ParseLine(f, line);
      if p.None? || p.value.0 in locked then None else Some(locked[p.value.0 := p.value.1])
  }

  function ParsedLock(f: Format, text: string): Option<map<string, Pin>> {
    ParseLines(f, SplitLines(text))
  }

  /** The parsing loop of _validate_windows_bundle. */
  method ParseLock(f: Format, text: string) returns (locked: Option<map<string, Pin>>)
    ensures locked == ParsedLock(f, text)
  {
    var lines := SplitLines(text);
    var pins := map[];
    for k := 0 to |lines|
      invariant ParseLines(f, lines[..k]) == Some(pins)
    {
      assert lines[..k + 1][..k] == lines[..k];
      var next := AddLine(f, pins, lines[k]);
      if next.None? {
        RefusedStaysRefused(f, lines, k + 1);
        return None;
      }
      pins := next.value;
    }
    assert lines[..|lines|] == lines;
    return Some(pins);
  }

  lemma {:induction false} RefusedStaysRefused(f: Format, lines: seq<string>, k: nat)
    requires k <= |lines| && ParseLines(f, lines[..k]).None?
    ensures ParseLines(f, lines).None?
    decreases |lines|
  {
    if k == |lines| {
      assert lines[..k] == lines;
    } else {
      assert lines[..|lines| - 1][..k] == lines[..k];
      RefusedStaysRefused(f, lines[..|lines| - 1], k);
    }
  }

  // ----- the round trip -----

  ghost predicate NoBreaks(s: string) {
    forall i :: 0 <= i < |s| ==> !IsBreak(s[i])
  }

  lemma {:induction false} LineLengthOf(line: string, rest: string)
    requires NoBreaks(line)
    ensures LineLength(line + "\n" + rest) == |line|
  {
    var t := line + "\n" + rest;
    if line != [] {
      LineLengthOf(line[1..], rest);
      assert t[1..] == line[1..] + "\n" + rest;
    }
  }

  lemma {:induction false} SplitUnlines(lines: seq<string>)
    requires forall line :: line in lines ==> NoBreaks(line)
    ensures SplitLines(Unlines(lines)) == lines
  {
    if lines != [] {
      var rest := Unlines(lines[1..]);
      LineLengthOf(lines[0], rest);
      SplitUnlines(lines[1..]);
      var t := lines[0] + "\n" + rest;
      assert t[..|lines[0]|] == lines[0] && t[|lines[0]| + 1..] == rest;
    }
  }

  /** What inspection guarantees of the version and digest texts, and acceptance of the name. */
  ghost predicate Printable(w: Wheel) {
    && ValidName(w.distribution) && Canonical(w.distribution) == w.distribution
    && VersionText(w.version) && DigestText(w.sha256)
  }

  lemma {:induction false} NameLengthOf(name: string, rest: string)
    requires NameChars(name) && (rest == [] || !(IsAlnum(rest[0]) || IsSeparator(rest[0])))
    ensures NameLength(name + rest) == |name|
  {
    if name == [] {
      assert name + rest == rest;
    } else {
      NameLengthOf(name[1..], rest);
      assert (name + rest)[1..] == name[1..] + rest;
    }
  }

  lemma {:induction false} BracketLengthOf(s: string, rest: string)
    requires ']' !in s
    ensures BracketLength(s + "]" + rest) == |s|
  {
    if s != [] {
      BracketLengthOf(s[1..], rest);
      assert (s + "]" + rest)[1..] == s[1..] + "]" + rest;
    }
  }

  lemma ParseNamed(name: string, tail: string)
    requires ValidName(name) && tail != "" && !(IsAlnum(tail[0]) || IsSeparator(tail[0]))
    ensures ParsePinned(name + tail) == ParseTail(name, tail)
  {
    NameLengthOf(name, tail);
    assert (name + tail)[..|name|] == name && (name + tail)[|name|..] == tail;
  }

  lemma ParseVersionOf(name: string, extra: string, version: string)
    requires VersionText(version)
    ensures ParseVersion(name, extra, "==" + version) == Some(Pinned(name, extra, version))
  {
    assert ("==" + version)[..2] == "==" && ("==" + version)[2..] == version;
  }

  lemma ParsePlain(name: string, version: string)
    requires ValidName(name) && VersionText(version)
    ensures ParsePinned(name + "==" + version) == Some(Pinned(name, "", version))
  {
    assert name + "==" + version == name + ("==" + version);
    ParseNamed(name, "==" + version);
    ParseVersionOf(name, "", version);
  }

  lemma ParseBracketOf(name: string, extra: string, rest: string)
    requires ']' !in extra
    ensures ParseBracket(name, extra + "]" + rest) == ParseVersion(name, extra, rest)
  {
    BracketLengthOf(extra, rest);
    var s := extra + "]" + rest;
    assert s[..|extra|] == extra && s[|extra| + 1..] == rest;
  }

  lemma ParseExtra(name: string, extra: string, version: string)
    requires ValidName(name) && VersionText(version) && ']' !in extra
    ensures ParsePinned(name + "[" + extra + "]==" + version) == Some(Pinned(name, extra, version))
  {
    var inner := extra + "]" + ("==" + version);
    Reassociate(name, extra, version);
    ParseNamed(name, "[" + inner);
    assert ("[" + inner)[1..] == inner;
    ParseBracketOf(name, extra, "==" + version);
    ParseVersionOf(name, extra, version);
  }

  lemma Reassociate(name: string, extra: string, version: string)
    ensures name + "[" + extra + "]==" + version == name + ("[" + (extra + "]" + ("==" + version)))
  {
  }

  lemma CutLine(left: string, hash: string, digest: string)
    ensures (left + hash + digest)[..|left|] == left
    ensures (left + hash + digest)[|left|..|left| + |hash|] == hash
    ensures (left + hash + digest)[|left| + |hash|..] == digest
  {
  }

  lemma ParsePrintedLine(f: Format, w: Wheel)
    requires FormatOk(f) && Printable(w)
    ensures ParseLine(f, Line(f, w)) == Some((w.distribution, Pin(w.version, w.sha256)))
  {
    var text := RequirementText(f, w);
    CutLine(text, f.hash, w.sha256);
    if w.distribution == f.root {
      ParseExtra(f.root, f.extra, w.version);
    } else {
      ParsePlain(w.distribution, w.version);
    }
    var extra := if w.distribution == f.root then f.extra else "";
    assert ParsePinned(text) == Some(Pinned(w.distribution, extra, w.version));
    assert ParseLine(f, Line(f, w)) == PinOf(f, ParsePinned(text), w.sha256);
  }

  lemma NoBreaksConcat(a: string, b: string)
    requires NoBreaks(a) && NoBreaks(b)
    ensures NoBreaks(a + b)
  {
  }

  /** What the proofs need to know of the fixed texts. */
  ghost predicate FormatOk(f: Format) {
    && f.header != "" && f.header[0] == '#' && f.header[|f.header| - 1] == '.' && NoBreaks(f.header)
    && NoBreaks(f.hash) && NoBreaks(f.extra) && ']' !in f.extra && f.extra != ""
  }

  lemma RequirementIsClean(f: Format, w: Wheel)
    requires FormatOk(f) && Printable(w)
    ensures NoBreaks(RequirementText(f, w)) && RequirementText(f, w) != "" && IsAlnum(RequirementText(f, w)[0])
  {
    assert NoBreaks(w.version) && NoBreaks(w.distribution);
  }

  lemma PrintedLineIsClean(f: Format, w: Wheel)
    requires FormatOk(f) && Printable(w)
    ensures NoBreaks(Line(f, w)) && StripRight(StripLeft(Line(f, w))) == Line(f, w)
    ensures Line(f, w) != "" && Line(f, w)[0] != '#'
  {
    RequirementIsClean(f, w);
    assert NoBreaks(w.sha256);
    NoBreaksConcat(RequirementText(f, w), f.hash);
    NoBreaksConcat(RequirementText(f, w) + f.hash, w.sha256);
    EndsOf(RequirementText(f, w), f.hash, w.sha256);
  }

  lemma EndsOf(a: string, b: string, c: string)
    requires a != [] && c != [] && IsAlnum(a[0]) && IsHex(c[|c| - 1])
    ensures StripRight(StripLeft(a + b + c)) == a + b + c
    ensures (a + b + c)[0] == a[0]
  {
    assert (a + b + c)[|a + b + c| - 1] == c[|c| - 1];
  }

  ghost function Pins(house: House, ds: seq<string>): map<string, Pin> {
    map d | d in house && d in ds :: Pin(house[d].version, house[d].sha256)
  }

  lemma ParseSnoc(f: Format, lines: seq<string>, line: string, locked: map<string, Pin>)
    requires ParseLines(f, lines) == Some(locked)
    ensures ParseLines(f, lines + [line]) == AddLine(f, locked, line)
  {
    assert (lines + [line])[..|lines|] == lines;
  }

  lemma AddPrintedLine(f: Format, w: Wheel, locked: map<string, Pin>)
    requires FormatOk(f) && Printable(w) && w.distribution !in locked
    ensures AddLine(f, locked, Line(f, w)) == Some(locked[w.distribution := Pin(w.version, w.sha256)])
  {
    ParsePrintedLine(f, w);
    PrintedLineIsClean(f, w);
  }

  ghost predicate PrintableHouse(house: House) {
    forall d :: d in house ==> Printable(house[d]) && house[d].distribution == d
  }

  ghost predicate AllClean(lines: seq<string>) {
    forall line :: line in lines ==> NoBreaks(line)
  }

  lemma PinsSnoc(house: House, rest: seq<string>, d: string)
    requires d in house && d !in rest
    ensures d !in Pins(house, rest)
    ensures Pins(house, rest + [d]) == Pins(house, rest)[d := Pin(house[d].version, house[d].sha256)]
  {
  }

  lemma ParsePrintedStep(f: Format, house: House, rest: seq<string>, d: string)
    requires FormatOk(f) && PrintableHouse(house) && d in house && d !in rest && forall e :: e in rest ==> e in house
    requires ParseLines(f, Lines(f, house, rest)) == Some(Pins(house, rest)) && AllClean(Lines(f, house, rest))
    ensures ParseLines(f, Lines(f, house, rest + [d])) == Some(Pins(house, rest + [d]))
    ensures AllClean(Lines(f, house, rest + [d]))
  {
    PinsSnoc(house, rest, d);
    LinesSnoc(f, house, rest, d);
    AddPrintedLine(f, house[d], Pins(house, rest));
    ParseSnoc(f, Lines(f, house, rest), Line(f, house[d]), Pins(house, rest));
    PrintedLineIsClean(f, house[d]);
  }

  lemma {:induction false} ParsePrintedLines(f: Format, house: House, ds: seq<string>)
    requires FormatOk(f) && PrintableHouse(house) && Increasing(ds) && forall d :: d in ds ==> d in house
    ensures ParseLines(f, Lines(f, house, ds)) == Some(Pins(house, ds))
    ensures AllClean(Lines(f, house, ds))
  {
    if ds == [] {
      CommentIsSkipped(f, f.header);
      ParseSnoc(f, [], f.header, map[]);
      assert [] + [f.header] == [f.header];
    } else {
      var n := |ds| - 1;
      assert ds == ds[..n] + [ds[n]] && ds[n] !in ds[..n];
      ParsePrintedLines(f, house, ds[..n]);
      ParsePrintedStep(f, house, ds[..n], ds[n]);
    }
  }

  lemma CommentIsSkipped(f: Format, line: string)
    requires line != "" && line[0] == '#' && line[|line| - 1] == '.'
    ensures AddLine(f, map[], line) == Some(map[])
  {
  }

  lemma LockParses(f: Format, house: House)
    requires FormatOk(f) && PrintableHouse(house)
    ensures ParsedLock(f, LockText(f, house)) == Some(map d | d in house :: Pin(house[d].version, house[d].sha256))
  {
    var ds := Sorted(house.Keys);
    SortedIncreases(house.Keys);
    ParsePrintedLines(f, house, ds);
    AllPins(house, ds);
    SplitUnlines(Lines(f, house, ds));
  }

  lemma AllPins(house: House, ds: seq<string>)
    requires forall d :: d in house ==> d in ds
    ensures Pins(house, ds) == map d | d in house :: Pin(house[d].version, house[d].sha256)
  {
  }

  lemma HeaderStartOk()
    ensures NoBreaks("# Generated from the ") && NoBreaks("reviewed Windows ")
  {
  }

  lemma HeaderEndOk()
    ensures NoBreaks("Worker wheelhouse; ") && NoBreaks("do not edit.")
  {
  }

  lemma HeaderOk()
    ensures LOCK.header != "" && LOCK.header[0] == '#' && LOCK.header[|LOCK.header| - 1] == '.' && NoBreaks(LOCK.header)
  {
    var a, b, c, d := "# Generated from the ", "reviewed Windows ", "Worker wheelhouse; ", "do not edit.";
    HeaderStartOk();
    HeaderEndOk();
    NoBreaksConcat(a, b);
    NoBreaksConcat(a + b, c);
    NoBreaksConcat(a + b + c, d);
    FirstAndLast(a, b + c, d);
    assert a + b + c + d == a + (b + c) + d;
  }

  lemma LockFormatOk()
    ensures FormatOk(LOCK)
  {
    HeaderOk();
  }

  lemma FirstAndLast(a: string, b: string, c: string)
    requires a != "" && c != ""
    ensures (a + b + c)[0] == a[0] && (a + b + c)[|a + b + c| - 1] == c[|c| - 1]
  {
  }

  // ----- what the parser accepts -----

  /** vgen has its Worker extra, and every other name none, with or without the brackets. */
  function ExtraText(name: string, brackets: bool): string {
    if Canonical(name) == "vgen" then "[worker-comfyui]" else if brackets then "[]" else ""
  }

  /** The text of a lock line for a distribution, under any spelling of its name. */
  function LineText(name: string, brackets: bool, version: string, digest: string): string {
    name + ExtraText(name, brackets) + "==" + version + " --hash=sha256:" + digest
  }

  /** A version, and 64 lower-case hexadecimal digits. */
  predicate PinText(version: string, digest: string) {
    VersionText(version) && |digest| == 64 && forall i :: 0 <= i < |digest| ==> digest[i] in "0123456789abcdef"
  }

  lemma PinTextIs(version: string, digest: string)
    ensures PinText(version, digest) <==> VersionText(version) && DigestText(digest)
  {
    assert forall c: char :: c in "0123456789abcdef" <==> '0' <= c <= '9' || 'a' <= c <= 'f' by {
      HexDigits();
    }
  }

  lemma HexDigits()
    ensures forall c: char :: c in "0123456789abcdef" <==> '0' <= c <= '9' || 'a' <= c <= 'f'
  {
    var h := "0123456789abcdef";
    forall c: char | '0' <= c <= '9'
      ensures c in h
    {
      assert h[c as int - 48] == c;
    }
    forall c: char | 'a' <= c <= 'f'
      ensures c in h
    {
      assert h[c as int - 87] == c;
    }
    assert forall i :: 0 <= i < |h| ==> '0' <= h[i] <= '9' || 'a' <= h[i] <= 'f';
  }

  function RootExtra(name: string): string {
    if Canonical(name) == "vgen" then ROOT_EXTRA else ""
  }

  lemma RequirementParses(name: string, brackets: bool, version: string)
    requires ValidName(name) && VersionText(version)
    ensures
      ParsePinned(name + ExtraText(name, brackets) + "==" + version) == Some(Pinned(name, RootExtra(name), version))
  {
    if Canonical(name) == "vgen" {
      BracketTexts(name, ROOT_EXTRA, version);
      ParseExtra(name, ROOT_EXTRA, version);
    } else if brackets {
      BracketTexts(name, "", version);
      ParseExtra(name, "", version);
    } else {
      assert name + "" + "==" + version == name + "==" + version;
      ParsePlain(name, version);
    }
  }

  lemma BracketTexts(name: string, extra: string, version: string)
    ensures name + ("[" + extra + "]") + "==" + version == name + "[" + extra + "]==" + version
    ensures "[" + "" + "]" == "[]" && "[" + ROOT_EXTRA + "]" == "[worker-comfyui]"
  {
  }

  lemma ParsesText(name: string, brackets: bool, version: string, digest: string)
    requires ValidName(name) && VersionText(version) && DigestText(digest)
    ensures ParseLine(LOCK, LineText(name, brackets, version, digest)) == Some((Canonical(name), Pin(version, digest)))
  {
    var text := name + ExtraText(name, brackets) + "==" + version;
    RequirementParses(name, brackets, version);
    CutLine(text, LOCK.hash, digest);
    assert LineText(name, brackets, version, digest) == text + LOCK.hash + digest;
    LineOf(text, digest, Pinned(name, RootExtra(name), version));
  }

  lemma LineOf(text: string, digest: string, p: Pinned)
    requires text != "" && DigestText(digest) && ParsePinned(text) == Some(p) && p.extra == RootExtra(p.name)
    ensures ParseLine(LOCK, text + LOCK.hash + digest) == Some((Canonical(p.name), Pin(p.version, digest)))
  {
    CutLine(text, LOCK.hash, digest);
    var line := text + LOCK.hash + digest;
    assert |line| - DIGEST_LENGTH - |LOCK.hash| == |text|;
  }

  lemma TailText(name: string, tail: string)
    requires ParseTail(name, tail).Some?
    ensures
      var p := ParseTail(name, tail).value;
      && p.name == name && VersionText(p.version)
      && (tail == "[" + (p.extra + "]" + ("==" + p.version)) || (p.extra == "" && tail == "==" + p.version))
  {
    var p := ParseTail(name, tail).value;
    if tail != "" && tail[0] == '[' {
      var inner := tail[1..];
      var k := BracketLength(inner);
      BracketCloses(inner);
      assert inner == inner[..k] + "]" + inner[k + 1..];
      assert inner[k + 1..] == "==" + p.version;
      assert tail == "[" + inner;
    } else {
      assert tail == "==" + p.version;
    }
  }

  lemma PinnedText(s: string)
    requires ParsePinned(s).Some?
    ensures
      var p := ParsePinned(s).value;
      && ValidName(p.name) && VersionText(p.version)
      && (s == p.name + "[" + p.extra + "]==" + p.version || (p.extra == "" && s == p.name + "==" + p.version))
  {
    var n := NameLength(s);
    TailText(s[..n], s[n..]);
    JoinedText(s, n, ParsePinned(s).value);
  }

  lemma JoinedText(s: string, n: nat, p: Pinned)
    requires n <= |s| && p.name == s[..n]
    requires s[n..] == "[" + (p.extra + "]" + ("==" + p.version)) || (p.extra == "" && s[n..] == "==" + p.version)
    ensures s == p.name + "[" + p.extra + "]==" + p.version || (p.extra == "" && s == p.name + "==" + p.version)
  {
    assert s == s[..n] + s[n..];
    Reassociate(p.name, p.extra, p.version);
    assert p.name + "==" + p.version == p.name + ("==" + p.version);
  }

  lemma {:induction false} BracketCloses(s: string)
    ensures BracketLength(s) < |s| ==> s[BracketLength(s)] == ']'
  {
    if s != [] && s[0] != ']' {
      BracketCloses(s[1..]);
    }
  }

  ghost predicate IsLineFor(line: string, d: string, version: string, digest: string) {
    exists name, brackets ::
      ValidName(name) && Canonical(name) == d && line == LineText(name, brackets, version, digest)
  }

  /**
   A line is accepted for a distribution exactly when it is some spelling of its name, with the Worker extra for vgen
   and no extra for any other, a version, and a digest.
   */
  lemma LineParsesExactlyWhen(line: string, d: string, version: string, digest: string)
    ensures ParseLine(LOCK, line) == Some((d, Pin(version, digest))) <==>
      PinText(version, digest) && IsLineFor(line, d, version, digest)
  {
    PinTextIs(version, digest);
    if ParseLine(LOCK, line) == Some((d, Pin(version, digest))) {
      ParsedLine(line, d, version, digest);
    }
    if VersionText(version) && DigestText(digest) && IsLineFor(line, d, version, digest) {
      var name, brackets :|
        ValidName(name) && Canonical(name) == d && line == LineText(name, brackets, version, digest);
      ParsesText(name, brackets, version, digest);
    }
  }

  lemma CutsLine(line: string, d: string, version: string, digest: string) returns (left: string, p: Pinned)
    requires ParseLine(LOCK, line) == Some((d, Pin(version, digest)))
    ensures DigestText(digest) && line == left + LOCK.hash + digest && ParsePinned(left) == Some(p)
    ensures d == Canonical(p.name) && p.extra == RootExtra(p.name) && p.version == version
  {
    var n := |line| - DIGEST_LENGTH - |LOCK.hash|;
    left := line[..n];
    p := ParsePinned(left).value;
    assert line == left + line[n..n + |LOCK.hash|] + line[n + |LOCK.hash|..];
  }

  lemma ParsedLine(line: string, d: string, version: string, digest: string)
    requires ParseLine(LOCK, line) == Some((d, Pin(version, digest)))
    ensures VersionText(version) && DigestText(digest) && IsLineFor(line, d, version, digest)
  {
    var left, p := CutsLine(line, d, version, digest);
    PinnedText(left);
    var brackets := left != p.name + "==" + version;
    ExtraIs(left, p, brackets);
    assert line == LineText(p.name, brackets, version, digest);
  }

  lemma ExtraIs(left: string, p: Pinned, brackets: bool)
    requires p.extra == RootExtra(p.name)
    requires left == p.name + "[" + p.extra + "]==" + p.version || (p.extra == "" && left == p.name + "==" + p.version)
    requires brackets <==> left != p.name + "==" + p.version
    ensures left == p.name + ExtraText(p.name, brackets) + "==" + p.version
  {
    if Canonical(p.name) == "vgen" {
      assert left == p.name + "[worker-comfyui]" + "==" + p.version;
    } else if brackets {
      assert left == p.name + "[]" + "==" + p.version;
    } else {
      assert p.name + "" == p.name;
    }
  }

  /** A line adds its pin exactly when the distribution has none yet; a comment or an empty line adds nothing. */
  lemma AddsExactlyWhen(locked: map<string, Pin>, raw: string)
    ensures
      var line := StripRight(StripLeft(raw));
      if line == "" || line[0] == '#' then AddLine(LOCK, locked, raw) == Some(locked)
      else
        && (AddLine(LOCK, locked, raw).Some? <==> exists d, version, digest ::
             d !in locked && ParseLine(LOCK, line) == Some((d, Pin(version, digest))))
        && (forall d, version, digest :: d !in locked && ParseLine(LOCK, line) == Some((d, Pin(version, digest))) ==>
             AddLine(LOCK, locked, raw) == Some(locked[d := Pin(version, digest)]))
  {
    var line := StripRight(StripLeft(raw));
    if line != "" && line[0] != '#' && ParseLine(LOCK, line).Some? {
      var p := ParseLine(LOCK, line).value;
      assert ParseLine(LOCK, line) == Some((p.0, Pin(p.1.version, p.1.digest)));
    }
  }

  // ----- how the text is cut -----

  predicate IsLineEnd(s: string) {
    s == "\r\n" || (|s| == 1 && IsBreak(s[0]))
  }

  /** A line ends at the first break, and a carriage return with its line feed is one. */
  lemma SplitsLine(line: string, end: string, rest: string)
    requires NoBreaks(line) && IsLineEnd(end) && !(end == "\r" && rest != "" && rest[0] == '\n')
    ensures SplitLines(line + end + rest) == [line] + SplitLines(rest)
  {
    var t, n := line + end + rest, |line|;
    BreakAt(line, end + rest);
    assert t == line + (end + rest);
    assert t[n] == end[0] && t[..n] == line;
    if |end| == 2 {
      assert t[n + 1] == '\n' && t[n + 2..] == rest;
    } else {
      assert t[n + 1..] == rest;
      assert n + 1 < |t| ==> t[n + 1] == rest[0];
    }
  }

  lemma {:induction false} BreakAt(line: string, rest: string)
    requires NoBreaks(line) && rest != "" && IsBreak(rest[0])
    ensures LineLength(line + rest) == |line|
  {
    if line == [] {
      assert line + rest == rest;
    } else {
      assert (line + rest)[1..] == line[1..] + rest;
      BreakAt(line[1..], rest);
    }
  }

  /** Blanks around a line do not matter. */
  lemma {:induction false} StripsBlanks(left: string, s: string, right: string)
    requires (forall i :: 0 <= i < |left| ==> IsSpace(left[i])) && forall i :: 0 <= i < |right| ==> IsSpace(right[i])
    requires s != "" && !IsSpace(s[0]) && !IsSpace(s[|s| - 1])
    ensures StripRight(StripLeft(left + s + right)) == s
  {
    StripsLeft(left, s + right);
    assert left + s + right == left + (s + right);
    StripsRight(s, right);
  }

  lemma {:induction false} StripsLeft(left: string, s: string)
    requires (forall i :: 0 <= i < |left| ==> IsSpace(left[i])) && s != "" && !IsSpace(s[0])
    ensures StripLeft(left + s) == s
  {
    if left == [] {
      assert left + s == s;
    } else {
      assert (left + s)[1..] == left[1..] + s;
      StripsLeft(left[1..], s);
    }
  }

  lemma {:induction false} StripsRight(s: string, right: string)
    requires (forall i :: 0 <= i < |right| ==> IsSpace(right[i])) && s != "" && !IsSpace(s[|s| - 1])
    ensures StripRight(s + right) == s
  {
    if right == [] {
      assert s + right == s;
    } else {
      var n := |right| - 1;
      assert (s + right)[..|s + right| - 1] == s + right[..n];
      StripsRight(s, right[..n]);
    }
  }

  /**
   For every accepted wheelhouse, parsing the printed lock gives back exactly the version and digest
   of each wheel.  That every name survives is a consequence of the closure: an accepted wheel is
   pip, vgen, or named by some requirement.
   */
  lemma LockRoundTrip(wheels: seq<Wheel>, lib: Library)
    requires Acceptable(wheels, lib)
    requires forall k :: 0 <= k < |wheels| ==> VersionText(wheels[k].version) && DigestText(wheels[k].sha256)
    ensures ParsedLock(LOCK, LockText(LOCK, Index(wheels))) ==
      Some(map d | d in Index(wheels) :: Pin(Index(wheels)[d].version, Index(wheels)[d].sha256))
  {
    var house := Index(wheels);
    IndexKeys(wheels);
    forall d | d in house
      ensures Printable(house[d])
    {
      AcceptedNamesAreCanonical(house, lib, d);
    }
    LockFormatOk();
    LockParses(LOCK, house);
  }

  lemma AcceptedNamesAreCanonical(house: House, lib: Library, d: string)
    requires NoOrphans(house, lib) && d in house
    ensures ValidName(d) && Canonical(d) == d
  {
    if d == BOOTSTRAP || d == ROOT {
      RootNamesAreCanonical();
    } else {
      var patch: nat :| patch < PATCHES && Reachable(house, lib, patch, (d, ""));
      var p: seq<Node> :| Path(house, lib, patch, p) && p[|p| - 1] == (d, "");
      var k := |p| - 1;
      assert Edge(house, lib, patch, p[k - 1], p[k]);
      var i: nat :| Requires(house, lib, patch, p[k - 1], i, p[k]);
      CanonicalIsValid(house[p[k - 1].0].headers[i].requirement.name);
    }
  }

  lemma RootNamesAreCanonical()
    ensures Canonical(BOOTSTRAP) == BOOTSTRAP && Canonical(ROOT) == ROOT
  {
    LowerIsCanonical(BOOTSTRAP);
    LowerIsCanonical(ROOT);
  }
}
