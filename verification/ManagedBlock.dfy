/**
 The managed block of a shell configuration file: _update_managed_block in src/vgen/cli/completion.py.
 */
module ManagedBlock {
  import opened Common

  datatype Markers = Markers(start: string, end: string)

  const NAME := "vgen shell completion"
  const START := "# >>> " + NAME + " >>>"
  const END := "# <<< " + NAME + " <<<"
  const MARKERS := Markers(START, END)

  predicate OccursAt(t: string, p: string, i: nat) {
    i + |p| <= |t| && t[i..i + |p|] == p
  }

  /** str.find from position i: the least occurrence at or after i, or -1. */
  function FindFrom(t: string, p: string, i: nat): (k: int)
    ensures -1 <= k && (k >= 0 ==> i <= k && OccursAt(t, p, k))
    decreases |t| - i
  {
    if i + |p| > |t| then -1
    else if OccursAt(t, p, i) then i
    else if i < |t| then FindFrom(t, p, i + 1)
    else -1
  }

  function Find(t: string, p: string): int {
    FindFrom(t, p, 0)
  }

  lemma {:induction false} FindFromLeast(t: string, p: string, i: nat, j: nat)
    requires i <= j && OccursAt(t, p, j)
    ensures 0 <= FindFrom(t, p, i) <= j
    decreases |t| - i
  {
    if !OccursAt(t, p, i) {
      FindFromLeast(t, p, i + 1, j);
    }
  }

  /** The first occurrence is before every other, and is missing only when there is none. */
  lemma FindLeast(t: string, p: string, j: nat)
    requires OccursAt(t, p, j)
    ensures 0 <= Find(t, p) <= j
  {
    FindFromLeast(t, p, 0, j);
  }

  lemma FindIs(t: string, p: string, k: nat)
    requires OccursAt(t, p, k) && forall j: nat :: j < k ==> !OccursAt(t, p, j)
    ensures Find(t, p) == k
  {
    FindLeast(t, p, k);
  }

  /** The text is refused when it has one marker only, or an end marker before its first start marker. */
  predicate Incomplete(m: Markers, t: string) {
    var start, end := Find(t, m.start), Find(t, m.end);
    (start < 0) != (end < 0) || (start >= 0 && end < start)
  }

  function Separator(t: string): string {
    if t == "" || t[|t| - 1] == '\n' then "" else "\n"
  }

  /** The new text; None is the exception for an incomplete block. */
  function Update(m: Markers, t: string, block: string): Option<string> {
    var start, end := Find(t, m.start), Find(t, m.end);
    if Incomplete(m, t) then None
    else if start >= 0 then Some(t[..start] + block + t[end + |m.end|..])
    else Some(t + Separator(t) + block + "\n")
  }

  /** What precedes and follows the block in the updated text, for every block. */
  function Before(m: Markers, t: string): string
    requires !Incomplete(m, t)
  {
    var start := Find(t, m.start);
    if start >= 0 then t[..start] else t + Separator(t)
  }

  function After(m: Markers, t: string): string
    requires !Incomplete(m, t)
  {
    var end := Find(t, m.end);
    if end >= 0 then t[end + |m.end|..] else "\n"
  }

  // ----- markers cannot straddle -----

  /** One line, whose first character occurs nowhere else in it. */
  predicate LineMarker(p: string) {
    p != "" && (forall i :: 1 <= i < |p| ==> p[i] != p[0]) && '\n' !in p && '\r' !in p
  }

  predicate Distinctive(m: Markers) {
    LineMarker(m.start) && LineMarker(m.end) && m.start[0] == m.end[0]
  }

  /** A line with a '#' at its start only is a marker. */
  lemma HashLine(open: string, close: string)
    requires open != "" && open[0] == '#' && '#' !in open[1..] && '#' !in close
    requires '\n' !in open + close && '\r' !in open + close
    ensures LineMarker(open + NAME + close) && (open + NAME + close)[0] == '#'
  {
    var p := open + NAME + close;
    assert '#' !in NAME && '\n' !in NAME && '\r' !in NAME;
    assert p == open + (NAME + close) && open == open[..1] + open[1..];
    assert p[1..] == open[1..] + NAME + close;
    assert forall i :: 1 <= i < |p| ==> p[i] == p[1..][i - 1];
  }

  lemma MarkersAreDistinctive()
    ensures Distinctive(MARKERS)
  {
    HashLine("# >>> ", " >>>");
    HashLine("# <<< ", " <<<");
  }

  lemma OccursChars(t: string, p: string, i: nat)
    requires OccursAt(t, p, i)
    ensures forall j :: i <= j < i + |p| ==> t[j] == p[j - i]
  {
    assert forall j :: i <= j < i + |p| ==> t[j] == t[i..i + |p|][j - i];
  }

  /** A marker that starts before a block does not reach into it. */
  lemma NoStraddle(a: string, b: string, p: string, i: nat)
    requires LineMarker(p) && b != "" && b[0] == p[0]
    requires OccursAt(a + b, p, i) && i < |a|
    ensures OccursAt(a, p, i)
  {
    OccursChars(a + b, p, i);
    assert (a + b)[|a|] == b[0];
    if i + |p| <= |a| {
      assert (a + b)[i..i + |p|] == a[i..i + |p|];
    } else {
      assert false;
    }
  }

  /** A marker does not reach across a line end either. */
  lemma NoLineStraddle(a: string, p: string, i: nat)
    requires LineMarker(p) && OccursAt(a + "\n", p, i)
    ensures OccursAt(a, p, i)
  {
    OccursChars(a + "\n", p, i);
    assert (a + "\n")[|a|] == '\n';
    if i + |p| <= |a| {
      assert (a + "\n")[i..i + |p|] == a[i..i + |p|];
    } else {
      assert false;
    }
  }

  /** No marker occurs in the text before the block, or the block would have been found there. */
  lemma NothingBefore(m: Markers, t: string, p: string, i: nat)
    requires Distinctive(m) && !Incomplete(m, t) && (p == m.start || p == m.end)
    ensures !OccursAt(Before(m, t), p, i)
  {
    var start, end := Find(t, m.start), Find(t, m.end);
    assert t + "" == t;
    if OccursAt(Before(m, t), p, i) {
      if start >= 0 {
        assert t[..start][i..i + |p|] == t[i..i + |p|];
      } else if Separator(t) != "" {
        NoLineStraddle(t, p, i);
      }
      FindLeast(t, p, i);
    }
  }

  /** Both first markers of an updated text lie in its block. */
  lemma FirstInBlock(m: Markers, t: string, block: string, p: string, k: nat)
    requires Distinctive(m) && !Incomplete(m, t) && (p == m.start || p == m.end)
    requires block != "" && block[0] == m.start[0] && Find(block, p) == k
    ensures Find(Before(m, t) + block + After(m, t), p) == |Before(m, t)| + k
  {
    var a, z := Before(m, t), After(m, t);
    forall j: nat | OccursAt(a, p, j)
      ensures false
    {
      NothingBefore(m, t, p, j);
    }
    FirstAfter(a, block, z, p, k);
  }

  /** The first occurrence in a text whose first part has none, when none can straddle. */
  lemma FirstAfter(a: string, block: string, z: string, p: string, k: nat)
    requires LineMarker(p) && block != "" && block[0] == p[0] && Find(block, p) == k
    requires forall j: nat :: !OccursAt(a, p, j)
    ensures Find(a + block + z, p) == |a| + k
  {
    var u := a + block + z;
    Shifted(a, block, z, p, k);
    NotEarlierInBlock(a, block, z, p, k);
    forall j: nat | j < |a|
      ensures !OccursAt(u, p, j)
    {
      if OccursAt(u, p, j) {
        assert u == a + (block + z);
        NoStraddle(a, block + z, p, j);
      }
    }
    FindIs(u, p, |a| + k);
  }

  lemma Shifted(a: string, block: string, z: string, p: string, k: nat)
    requires OccursAt(block, p, k)
    ensures OccursAt(a + block + z, p, |a| + k)
  {
    assert (a + block + z)[|a| + k..|a| + k + |p|] == block[k..k + |p|];
  }

  lemma NotEarlierInBlock(a: string, block: string, z: string, p: string, k: nat)
    requires Find(block, p) == k
    ensures forall j: nat :: |a| <= j < |a| + k ==> !OccursAt(a + block + z, p, j)
  {
    var u := a + block + z;
    forall j: nat | |a| <= j < |a| + k
      ensures !OccursAt(u, p, j)
    {
      if OccursAt(u, p, j) {
        assert u[j..j + |p|] == block[j - |a|..j - |a| + |p|];
        FindLeast(block, p, j - |a|);
      }
    }
  }

  // ----- the results -----

  /** A block as it is written: the start marker first, the end marker last. */
  predicate IsBlock(m: Markers, block: string) {
    OccursAt(block, m.start, 0) && |m.end| <= |block| && OccursAt(block, m.end, |block| - |m.end|)
  }

  /** The new text is the block between parts that do not depend on it; outside the block nothing is lost. */
  lemma UpdateReplaces(m: Markers, t: string, block: string)
    ensures Update(m, t, block).Some? <==> !Incomplete(m, t)
    ensures !Incomplete(m, t) ==> Update(m, t, block) == Some(Before(m, t) + block + After(m, t))
    ensures !Incomplete(m, t) && Find(t, m.start) < 0 ==> t <= Before(m, t) && After(m, t) == "\n"
    ensures !Incomplete(m, t) && Find(t, m.start) >= 0 ==>
      t == Before(m, t) + t[|Before(m, t)|..Find(t, m.end) + |m.end|] + After(m, t)
  {
  }

  /** Where there was no block, the new one starts on a line of its own, after all the text there was. */
  lemma AppendedOnItsOwnLine(m: Markers, t: string)
    requires !Incomplete(m, t) && Find(t, m.start) < 0
    ensures Before(m, t) == t || Before(m, t) == t + "\n"
    ensures Before(m, t) == "" || Before(m, t)[|Before(m, t)| - 1] == '\n'
    ensures t == "" || t[|t| - 1] == '\n' ==> Before(m, t) == t
  {
    assert t + "" == t;
  }

  /** After an update the text is complete, and its block starts where the first block was put. */
  lemma UpdatedShape(m: Markers, t: string, block: string)
    requires Distinctive(m) && !Incomplete(m, t) && IsBlock(m, block)
    ensures
      var u := Before(m, t) + block + After(m, t);
      && Find(block, m.end) >= 0
      && Find(u, m.start) == |Before(m, t)|
      && Find(u, m.end) == |Before(m, t)| + Find(block, m.end)
      && !Incomplete(m, u)
  {
    assert block[0] == block[0..0 + |m.start|][0] == m.start[0];
    FindIs(block, m.start, 0);
    FindLeast(block, m.end, |block| - |m.end|);
    FirstInBlock(m, t, block, m.start, 0);
    FirstInBlock(m, t, block, m.end, Find(block, m.end));
  }

  /** A second update keeps what follows the first end marker inside the first block. */
  lemma SecondUpdate(m: Markers, t: string, first: string, second: string)
    requires Distinctive(m) && !Incomplete(m, t) && IsBlock(m, first)
    ensures
      var u := Before(m, t) + first + After(m, t);
      var k := Find(first, m.end);
      k >= 0 && Update(m, u, second) == Some(Before(m, t) + second + (first[k + |m.end|..] + After(m, t)))
  {
    UpdatedShape(m, t, first);
    UpdateAt(m, Before(m, t), first, After(m, t), Find(first, m.end), second);
  }

  lemma UpdateAt(m: Markers, a: string, b: string, z: string, k: nat, block: string)
    requires k + |m.end| <= |b|
    requires Find(a + b + z, m.start) == |a| && Find(a + b + z, m.end) == |a| + k
    ensures Update(m, a + b + z, block) == Some(a + block + (b[k + |m.end|..] + z))
  {
    Cut(a, b, z, k + |m.end|);
  }

  lemma Cut(a: string, b: string, z: string, k: nat)
    requires k <= |b|
    ensures (a + b + z)[..|a|] == a && (a + b + z)[|a| + k..] == b[k..] + z
  {
  }

  /**
   Updating with one block and then with another is updating with the second alone, exactly when the
   first has the end marker only at its end; and an updated text can always be updated again.
   */
  lemma SecondUpdateWinsExactlyWhen(m: Markers, t: string, first: string, second: string)
    requires Distinctive(m) && Update(m, t, first).Some? && IsBlock(m, first)
    ensures Update(m, Update(m, t, first).value, second).Some?
    ensures Update(m, Update(m, t, first).value, second) == Update(m, t, second)
      <==> Find(first, m.end) == |first| - |m.end|
  {
    UpdateReplaces(m, t, first);
    UpdateReplaces(m, t, second);
    SecondUpdate(m, t, first, second);
    var k := Find(first, m.end);
    InnerRest(Before(m, t), second, first[k + |m.end|..], After(m, t));
  }

  lemma InnerRest(a: string, b: string, rest: string, z: string)
    ensures a + b + (rest + z) == a + b + z <==> rest == ""
  {
    if rest == "" {
      assert rest + z == z;
    } else {
      assert |a + b + (rest + z)| > |a + b + z|;
    }
  }

  /** Writing the same block again changes nothing. */
  lemma UpdateIsIdempotent(m: Markers, t: string, block: string)
    requires Distinctive(m) && Update(m, t, block).Some? && IsBlock(m, block)
    requires Find(block, m.end) == |block| - |m.end|
    ensures Update(m, Update(m, t, block).value, block) == Update(m, t, block)
  {
    SecondUpdateWinsExactlyWhen(m, t, block, block);
  }

  /** A block with an end marker inside is a block, and the next update leaves the rest of it behind. */
  lemma InnerEndMarkerIsLeftBehind(m: Markers, t: string, lead: string, inner: string, second: string)
    requires Distinctive(m) && !Incomplete(m, t)
    ensures
      var first := m.start + lead + m.end + inner + m.end;
      && IsBlock(m, first) && Update(m, t, first).Some?
      && Update(m, Update(m, t, first).value, second) != Update(m, t, second)
  {
    var first, k := m.start + lead + m.end + inner + m.end, |m.start + lead|;
    assert first[0..|m.start|] == m.start && first[|first| - |m.end|..|first|] == m.end;
    assert first[k..k + |m.end|] == m.end;
    FindLeast(first, m.end, k);
    UpdateReplaces(m, t, first);
    SecondUpdateWinsExactlyWhen(m, t, first, second);
  }
}
