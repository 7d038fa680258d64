/**
 Newline normalisation of a wheel's METADATA: a run of carriage returns before a line feed becomes the
 line feed, then every other carriage return becomes a line feed (tools/windows_worker_wheelhouse.py).
 */
module Newlines {

  type Bytes = seq<int>

  const CR := 13
  const LF := 10

  /** The bytes are a run of carriage returns, possibly empty, and then a line feed and anything. */
  predicate ReachesLf(b: Bytes) {
    b != [] && (b[0] == LF || (b[0] == CR && ReachesLf(b[1..])))
  }

  /** re.sub of a run of CR and an LF by the LF: a CR goes when only CRs separate it from an LF. */
  function Collapse(b: Bytes): Bytes {
    if b == [] then []
    else if b[0] == CR && ReachesLf(b[1..]) then Collapse(b[1..])
    else [b[0]] + Collapse(b[1..])
  }

  /** bytes.replace of CR by LF. */
  function Replace(b: Bytes): Bytes {
    if b == [] then [] else [if b[0] == CR then LF else b[0]] + Replace(b[1..])
  }

  function Normalise(b: Bytes): Bytes {
    Replace(Collapse(b))
  }

  lemma {:induction false} NoCrLeft(b: Bytes)
    ensures CR !in Replace(b) && |Replace(b)| == |b|
  {
    if b != [] {
      NoCrLeft(b[1..]);
    }
  }

  lemma {:induction false} CollapseShrinks(b: Bytes)
    ensures |Collapse(b)| <= |b|
  {
    if b != [] {
      CollapseShrinks(b[1..]);
    }
  }

  /** Text without carriage returns is left as it is. */
  lemma {:induction false} PlainIsKept(b: Bytes)
    requires CR !in b
    ensures Collapse(b) == b && Replace(b) == b
  {
    if b != [] {
      assert b[0] in b;
      assert forall x :: x in b[1..] ==> x in b;
      PlainIsKept(b[1..]);
      assert b == [b[0]] + b[1..];
    }
  }

  lemma NormaliseIdempotent(b: Bytes)
    ensures Normalise(Normalise(b)) == Normalise(b)
    ensures |Normalise(b)| <= |b|
  {
    NoCrLeft(Collapse(b));
    CollapseShrinks(b);
    PlainIsKept(Normalise(b));
  }

  function Crs(n: nat): Bytes {
    if n == 0 then [] else [CR] + Crs(n - 1)
  }

  /** The bytes from position i on, with crs(k) carriage returns put before a line feed at position k. */
  function WithCrs(b: Bytes, crs: nat -> nat, i: nat): Bytes
    requires i <= |b|
    decreases |b| - i
  {
    if i == |b| then []
    else (if b[i] == LF then Crs(crs(i)) else []) + ([b[i]] + WithCrs(b, crs, i + 1))
  }

  lemma {:induction false} CrsCollapse(n: nat, rest: Bytes)
    requires rest != [] && rest[0] == LF
    ensures ReachesLf(Crs(n) + rest) && Collapse(Crs(n) + rest) == Collapse(rest)
  {
    if n == 0 {
      assert Crs(n) + rest == rest;
    } else {
      assert (Crs(n) + rest)[1..] == Crs(n - 1) + rest;
      CrsCollapse(n - 1, rest);
    }
  }

  lemma {:induction false} WithCrsCollapse(b: Bytes, crs: nat -> nat, i: nat)
    requires CR !in b && i <= |b|
    ensures Collapse(WithCrs(b, crs, i)) == b[i..]
    ensures |WithCrs(b, crs, i)| >= |b| - i
    decreases |b| - i
  {
    if i < |b| {
      WithCrsCollapse(b, crs, i + 1);
      var rest := [b[i]] + WithCrs(b, crs, i + 1);
      assert rest[1..] == WithCrs(b, crs, i + 1);
      assert b[i] in b;
      assert Collapse(rest) == [b[i]] + b[i + 1..];
      assert b[i..] == [b[i]] + b[i + 1..];
      if b[i] == LF {
        CrsCollapse(crs(i), rest);
      } else {
        assert [] + rest == rest;
      }
    }
  }

  /** Any number of carriage returns before line feeds of plain text is normalised away. */
  lemma InsertedCrsVanish(b: Bytes, crs: nat -> nat)
    requires CR !in b
    ensures Normalise(WithCrs(b, crs, 0)) == b && Normalise(b) == b
    ensures |WithCrs(b, crs, 0)| >= |b|
  {
    WithCrsCollapse(b, crs, 0);
    PlainIsKept(b);
  }

  // ----- what normalising does to a text, from its start -----

  /** A byte that is no carriage return stays. */
  lemma KeepsOthers(x: int, b: Bytes)
    requires x != CR
    ensures Normalise([x] + b) == [x] + Normalise(b)
  {
    var c := Collapse(b);
    assert ([x] + b)[1..] == b && ([x] + c)[1..] == c;
    assert Collapse([x] + b) == [x] + c;
  }

  /** A run of carriage returns before a line feed goes, and the line feed stays. */
  lemma CollapsesRun(n: nat, b: Bytes)
    ensures Normalise(Crs(n) + [LF] + b) == [LF] + Normalise(b)
  {
    var rest := [LF] + b;
    assert Crs(n) + [LF] + b == Crs(n) + rest;
    CrsCollapse(n, rest);
    KeepsOthers(LF, b);
  }

  /** Every carriage return of a run that ends otherwise becomes a line feed. */
  lemma {:induction false} ReplacesRun(n: nat, b: Bytes)
    requires b == [] || (b[0] != LF && b[0] != CR)
    ensures Normalise(Crs(n) + b) == Lfs(n) + Normalise(b)
    ensures !ReachesLf(Crs(n) + b)
  {
    if n == 0 {
      assert Crs(n) + b == b && Lfs(n) + Normalise(b) == Normalise(b);
    } else {
      var rest := Crs(n - 1) + b;
      assert (Crs(n) + b)[1..] == rest;
      ReplacesRun(n - 1, b);
      var c := Collapse(rest);
      assert Collapse(Crs(n) + b) == [CR] + c;
      assert ([CR] + c)[1..] == c;
      assert Normalise(Crs(n) + b) == [LF] + Normalise(rest);
      assert [LF] + (Lfs(n - 1) + Normalise(b)) == Lfs(n) + Normalise(b);
    }
  }

  function Lfs(n: nat): Bytes {
    if n == 0 then [] else [LF] + Lfs(n - 1)
  }
}
