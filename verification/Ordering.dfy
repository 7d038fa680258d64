/**
 Code-point order on strings, and sorting a finite set of them.  Python's `sorted` over distinct
 names, and sorting by their UTF-8 bytes (which compares code points as well), are `Sorted`.
 */
module Ordering {

  predicate LessEq(a: string, b: string) {
    a == [] || (b != [] && (a[0] < b[0] || (a[0] == b[0] && LessEq(a[1..], b[1..]))))
  }

  lemma {:induction false} Total(a: string, b: string)
    ensures LessEq(a, b) || LessEq(b, a)
  {
    if a != [] && b != [] && a[0] == b[0] {
      Total(a[1..], b[1..]);
    }
  }

  lemma {:induction false} Antisymmetric(a: string, b: string)
    requires LessEq(a, b) && LessEq(b, a)
    ensures a == b
  {
    if a != [] && b != [] {
      Antisymmetric(a[1..], b[1..]);
      assert a == [a[0]] + a[1..] && b == [b[0]] + b[1..];
    }
  }

  lemma {:induction false} Transitive(a: string, b: string, c: string)
    requires LessEq(a, b) && LessEq(b, c)
    ensures LessEq(a, c)
  {
    if a != [] && b != [] && c != [] && a[0] == b[0] && b[0] == c[0] {
      Transitive(a[1..], b[1..], c[1..]);
    }
  }

  ghost predicate IsLeast(m: string, s: set<string>) {
    m in s && forall x :: x in s ==> LessEq(m, x)
  }

  lemma {:induction false} LeastExists(s: set<string>)
    requires s != {}
    ensures exists m :: IsLeast(m, s)
  {
    var x :| x in s;
    if s == {x} {
      Total(x, x);
      assert IsLeast(x, s);
    } else {
      LeastExists(s - {x});
      var m :| IsLeast(m, s - {x});
      Total(x, x);
      Total(m, x);
      if LessEq(m, x) {
        assert IsLeast(m, s);
      } else {
        forall y | y in s
          ensures LessEq(x, y)
        {
          if y != x {
            Transitive(x, m, y);
          }
        }
        assert IsLeast(x, s);
      }
    }
  }

  ghost function Least(s: set<string>): (m: string)
    requires s != {}
    ensures IsLeast(m, s)
  {
    LeastExists(s);
    var m :| IsLeast(m, s);
    m
  }

  lemma LeastUnique(m: string, s: set<string>)
    requires IsLeast(m, s)
    ensures Least(s) == m
  {
    Antisymmetric(m, Least(s));
  }

  ghost function Sorted(s: set<string>): (r: seq<string>)
    ensures |r| == |s|
    ensures forall x :: x in s <==> x in r
    decreases |s|
  {
    if s == {} then [] else [Least(s)] + Sorted(s - {Least(s)})
  }

  ghost predicate Increasing(r: seq<string>) {
    forall i, k :: 0 <= i < k < |r| ==> r[i] != r[k] && LessEq(r[i], r[k])
  }

  lemma {:induction false} SortedIncreases(s: set<string>)
    ensures Increasing(Sorted(s))
    decreases |s|
  {
    if s != {} {
      SortedIncreases(s - {Least(s)});
      Prepend(Least(s), Sorted(s - {Least(s)}));
    }
  }

  lemma Prepend(m: string, rest: seq<string>)
    requires Increasing(rest) && m !in rest && forall x :: x in rest ==> LessEq(m, x)
    ensures Increasing([m] + rest)
  {
    var r := [m] + rest;
    forall i, k | 0 <= i < k < |r|
      ensures r[i] != r[k] && LessEq(r[i], r[k])
    {
      assert r[k] == rest[k - 1];
      assert r[k] in rest;
      if i > 0 {
        assert r[i] == rest[i - 1];
      }
    }
  }

  /** The sorted sequence of a set is unique: any increasing sequence of its elements is that one. */
  lemma {:induction false} SortedUnique(r: seq<string>, s: set<string>)
    requires Increasing(r) && (forall x :: x in s <==> x in r)
    ensures r == Sorted(s)
    decreases |r|
  {
    if r == [] {
      assert s == {};
    } else {
      assert r[0] in s;
      forall x | x in s
        ensures LessEq(r[0], x)
      {
        var i :| 0 <= i < |r| && r[i] == x;
        Total(x, x);
      }
      LeastUnique(r[0], s);
      forall x
        ensures x in s - {r[0]} <==> x in r[1..]
      {
        if x in s - {r[0]} {
          var i :| 0 <= i < |r| && r[i] == x;
          assert r[1..][i - 1] == x;
        }
        if x in r[1..] {
          var i :| 0 <= i < |r| - 1 && r[1..][i] == x;
          assert r[i + 1] == x;
        }
      }
      SortedUnique(r[1..], s - {r[0]});
    }
  }

  method FindLeast(s: set<string>) returns (m: string)
    requires s != {}
    ensures m in s && m == Least(s)
  {
    LeastExists(s);
    m :| m in s && forall e :: e in s ==> LessEq(m, e);
    LeastUnique(m, s);
  }

  lemma SortedSplits(all: set<string>, done: seq<string>, rest: set<string>)
    requires rest != {} && Sorted(all) == done + Sorted(rest)
    ensures Sorted(all) == done + [Least(rest)] + Sorted(rest - {Least(rest)})
  {
  }

  method SortNames(names: set<string>) returns (r: seq<string>)
    ensures r == Sorted(names)
  {
    r := [];
    var rest := names;
    while rest != {}
      invariant Sorted(names) == r + Sorted(rest)
      decreases |rest|
    {
      var d := FindLeast(rest);
      SortedSplits(names, r, rest);
      r := r + [d];
      rest := rest - {d};
    }
  }
}
