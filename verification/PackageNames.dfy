/**
 Names of Python distributions: what PEP 508 accepts, and the canonical form that
 packaging.utils.canonicalize_name computes.
 */
module PackageNames {

  predicate IsLower(c: char) {
    'a' <= c <= 'z' || '0' <= c <= '9'
  }

  predicate IsAlnum(c: char) {
    IsLower(c) || 'A' <= c <= 'Z'
  }

  predicate IsSeparator(c: char) {
    c == '-' || c == '_' || c == '.'
  }

  /** The PEP 508 identifier: letters, digits and separators, with a letter or digit at both ends. */
  predicate ValidName(s: string) {
    && s != []
    && IsAlnum(s[0]) && IsAlnum(s[|s| - 1])
    && NameChars(s)
  }

  function ToLower(c: char): char {
    if 'A' <= c <= 'Z' then c - 'A' + 'a' else c
  }

  function DropSeparators(s: string): (r: string)
    ensures |r| <= |s| && r == s[|s| - |r|..]
    ensures r != [] ==> !IsSeparator(r[0])
    ensures s != [] && !IsSeparator(s[0]) ==> r == s
  {
    if s != [] && IsSeparator(s[0]) then DropSeparators(s[1..]) else s
  }

  /** Every run of separators becomes one hyphen, every letter lower case. */
  function Canonical(s: string): string
    decreases |s|
  {
    if s == [] then []
    else if IsSeparator(s[0]) then ['-'] + Canonical(DropSeparators(s[1..]))
    else [ToLower(s[0])] + Canonical(s[1..])
  }

  predicate NameChars(s: string) {
    forall i :: 0 <= i < |s| ==> IsAlnum(s[i]) || IsSeparator(s[i])
  }

  predicate CanonicalChars(s: string) {
    forall i :: 0 <= i < |s| ==> IsLower(s[i]) || s[i] == '-'
  }

  lemma ToLowerOk(c: char)
    requires IsAlnum(c)
    ensures IsLower(ToLower(c)) && ToLower(ToLower(c)) == ToLower(c)
  {
  }

  predicate FirstIsSeparator(s: string) {
    s != [] && IsSeparator(s[0])
  }

  predicate LastIsSeparator(s: string) {
    s != [] && IsSeparator(s[|s| - 1])
  }

  lemma LastKept(s: string, head: char, rest: string, c: string)
    requires s != [] && (IsSeparator(head) <==> IsSeparator(s[0]))
    requires rest == if IsSeparator(s[0]) then DropSeparators(s[1..]) else s[1..]
    requires (c == [] <==> rest == []) && (LastIsSeparator(c) <==> LastIsSeparator(rest))
    ensures LastIsSeparator([head] + c) <==> LastIsSeparator(s)
  {
    if rest == [] {
      OnlySeparators(s[1..]);
      assert |s| > 1 ==> s[|s| - 1] == s[1..][|s| - 2];
    } else {
      assert rest[|rest| - 1] == s[1..][|s| - 2];
      assert s[1..][|s| - 2] == s[|s| - 1];
    }
  }

  lemma {:induction false} CanonicalShape(s: string)
    requires NameChars(s)
    ensures CanonicalChars(Canonical(s)) && (Canonical(s) == [] <==> s == [])
    ensures FirstIsSeparator(Canonical(s)) <==> FirstIsSeparator(s)
    ensures LastIsSeparator(Canonical(s)) <==> LastIsSeparator(s)
    decreases |s|
  {
    if s != [] {
      var rest := if IsSeparator(s[0]) then DropSeparators(s[1..]) else s[1..];
      var head := if IsSeparator(s[0]) then '-' else ToLower(s[0]);
      CanonicalShape(rest);
      var c := Canonical(rest);
      assert Canonical(s) == [head] + c;
      if !IsSeparator(s[0]) {
        ToLowerOk(s[0]);
      }
      assert CanonicalChars([head] + c);
      LastKept(s, head, rest, c);
    }
  }

  lemma OnlySeparators(s: string)
    requires DropSeparators(s) == []
    ensures forall i :: 0 <= i < |s| ==> IsSeparator(s[i])
  {
    if s != [] {
      assert IsSeparator(s[0]);
      OnlySeparators(s[1..]);
      forall i | 0 <= i < |s|
        ensures IsSeparator(s[i])
      {
        assert i > 0 ==> s[i] == s[1..][i - 1];
      }
    }
  }

  /** Canonicalising twice changes nothing more. */
  lemma {:induction false} CanonicalIdempotent(s: string)
    requires NameChars(s)
    ensures Canonical(Canonical(s)) == Canonical(s)
    decreases |s|
  {
    if s != [] {
      var c := Canonical(s);
      if IsSeparator(s[0]) {
        var rest := DropSeparators(s[1..]);
        CanonicalIdempotent(rest);
        CanonicalShape(rest);
        assert c[1..] == Canonical(rest);
        assert DropSeparators(Canonical(rest)) == Canonical(rest);
      } else {
        CanonicalIdempotent(s[1..]);
        assert c[1..] == Canonical(s[1..]);
        assert !IsSeparator(c[0]);
      }
    }
  }

  /** A canonical name is itself a valid name made of lower-case letters, digits and hyphens. */
  lemma CanonicalIsValid(s: string)
    requires ValidName(s)
    ensures ValidName(Canonical(s)) && Canonical(Canonical(s)) == Canonical(s)
    ensures CanonicalChars(Canonical(s))
  {
    CanonicalShape(s);
    CanonicalIdempotent(s);
  }

  lemma {:induction false} LowerIsCanonical(s: string)
    requires forall i :: 0 <= i < |s| ==> IsLower(s[i])
    ensures Canonical(s) == s
  {
    if s != [] {
      LowerIsCanonical(s[1..]);
    }
  }

  // ----- what the canonical form is -----

  /** The ASCII lower case of a letter or digit. */
  predicate IsLowerCaseOf(c: char, d: char) {
    if 'A' <= c <= 'Z' then d as int == c as int + 32 else d == c
  }

  predicate InLowerCase(w: string, v: string) {
    |v| == |w| && forall i :: 0 <= i < |w| ==> IsLowerCaseOf(w[i], v[i])
  }

  /** Letters and digits stay where they are, in lower case. */
  lemma {:induction false} CanonicalOfWord(w: string, rest: string)
    requires forall i :: 0 <= i < |w| ==> IsAlnum(w[i])
    ensures |w| <= |Canonical(w + rest)| && InLowerCase(w, Canonical(w + rest)[..|w|])
    ensures Canonical(w + rest)[|w|..] == Canonical(rest)
  {
    if w == [] {
      assert w + rest == rest;
    } else {
      assert (w + rest)[1..] == w[1..] + rest;
      CanonicalOfWord(w[1..], rest);
      var c := Canonical(w[1..] + rest);
      assert Canonical(w + rest) == [ToLower(w[0])] + c;
    }
  }

  /** A run of separators, however long and of whatever kind, becomes one hyphen. */
  lemma CanonicalOfRun(run: string, rest: string)
    requires run != [] && (forall i :: 0 <= i < |run| ==> IsSeparator(run[i])) && !FirstIsSeparator(rest)
    ensures Canonical(run + rest) == "-" + Canonical(rest)
  {
    assert (run + rest)[1..] == run[1..] + rest;
    DropsRun(run[1..], rest);
  }

  lemma {:induction false} DropsRun(run: string, rest: string)
    requires (forall i :: 0 <= i < |run| ==> IsSeparator(run[i])) && !FirstIsSeparator(rest)
    ensures DropSeparators(run + rest) == rest
  {
    if run == [] {
      assert run + rest == rest;
    } else {
      assert (run + rest)[1..] == run[1..] + rest;
      DropsRun(run[1..], rest);
    }
  }
}
