/**
 The cached workflow catalog: write_catalog_cache in src/vgen/cli/workflow_catalog.py, which is to refuse an
 index that gives a learned code to another workflow.
 */
module CatalogCaches {
  import opened Common
  import opened WorkflowCodes

  /** The workflows a code stands for in a catalog of its own. */
  function Known(code: string, entries: seq<Entry>): set<string> {
    Candidates(code, {}, entries)
  }

  predicate Kept(code: string, previous: seq<Entry>, incoming: seq<Entry>) {
    Known(code, previous) == {} || Known(code, previous) == Known(code, incoming)
  }

  /** The check before the cache is replaced: it goes through the codes of the new catalog. */
  predicate Accepted(previous: seq<Entry>, incoming: seq<Entry>) {
    forall e :: e in incoming ==> Kept(e.code, previous, incoming)
  }

  predicate IsCodeOf(code: string, entries: seq<Entry>) {
    exists e :: e in entries && e.code == code
  }

  function Named(name: string, entries: seq<Entry>): set<string> {
    set e | e in entries && Tail(e.id) == name :: e.id
  }

  lemma KnownIs(code: string, entries: seq<Entry>)
    ensures Known(code, entries) == Named(code, entries) + set e | e in entries && e.code == code :: e.id
    ensures !IsCodeOf(code, entries) ==> Known(code, entries) == Named(code, entries)
    ensures forall e :: e in entries ==> e.id in Known(e.code, entries) && e.id in Known(Tail(e.id), entries)
  {
  }

  // ----- one refresh -----

  /** The code stood for something and now stands for something else. */
  predicate Reassigned(code: string, previous: seq<Entry>, incoming: seq<Entry>) {
    Known(code, incoming) != {} && !Kept(code, previous, incoming)
  }

  /** A new name that is no code of the new catalog was free, or stood for the very workflows that have it. */
  predicate NamesKept(previous: seq<Entry>, incoming: seq<Entry>) {
    forall e :: e in incoming && !IsCodeOf(Tail(e.id), incoming) ==>
      Known(Tail(e.id), previous) == {} || Known(Tail(e.id), previous) == Named(Tail(e.id), incoming)
  }

  lemma NameOf(code: string, entries: seq<Entry>) returns (e: Entry)
    requires Known(code, entries) != {} && !IsCodeOf(code, entries)
    ensures e in entries && Tail(e.id) == code
  {
    KnownIs(code, entries);
    var id :| id in Known(code, entries);
    e :| e in entries && Tail(e.id) == code && e.id == id;
  }

  /** An accepted refresh reassigns no code exactly when it keeps the names that it does not check. */
  lemma NoneReassignedExactlyWhen(previous: seq<Entry>, incoming: seq<Entry>)
    requires Accepted(previous, incoming)
    ensures (forall code :: !Reassigned(code, previous, incoming)) <==> NamesKept(previous, incoming)
  {
    if NamesKept(previous, incoming) {
      forall code
        ensures !Reassigned(code, previous, incoming)
      {
        if Known(code, incoming) != {} && !IsCodeOf(code, incoming) {
          var e := NameOf(code, incoming);
          KnownIs(code, incoming);
        }
      }
    }
    if forall code :: !Reassigned(code, previous, incoming) {
      forall e | e in incoming && !IsCodeOf(Tail(e.id), incoming)
        ensures Known(Tail(e.id), previous) == {} || Known(Tail(e.id), previous) == Named(Tail(e.id), incoming)
      {
        assert !Reassigned(Tail(e.id), previous, incoming);
        KnownIs(Tail(e.id), incoming);
      }
    }
  }

  // ----- every sequence of refreshes -----

  /** What the cache held, refresh by refresh. */
  ghost predicate History(caches: seq<seq<Entry>>) {
    forall n: nat :: n + 1 < |caches| ==> Accepted(caches[n], caches[n + 1])
  }

  /** Every code and name of the old catalog is known to the new one. */
  predicate NoneForgotten(previous: seq<Entry>, incoming: seq<Entry>) {
    forall e :: e in previous ==> Known(e.code, incoming) != {} && Known(Tail(e.id), incoming) != {}
  }

  predicate Keeps(previous: seq<Entry>, incoming: seq<Entry>) {
    NamesKept(previous, incoming) && NoneForgotten(previous, incoming)
  }

  /** A refresh keeps all that was known, exactly when it keeps the unchecked names and forgets none. */
  lemma KeepsExactlyWhen(previous: seq<Entry>, incoming: seq<Entry>)
    requires Accepted(previous, incoming)
    ensures (forall code :: Kept(code, previous, incoming)) <==> Keeps(previous, incoming)
  {
    NoneReassignedExactlyWhen(previous, incoming);
    if Keeps(previous, incoming) {
      forall code
        ensures Kept(code, previous, incoming)
      {
        if Known(code, previous) != {} {
          StillKnown(code, previous, incoming);
          assert !Reassigned(code, previous, incoming);
        }
      }
    }
    if forall code :: Kept(code, previous, incoming) {
      forall e | e in previous
        ensures Known(e.code, incoming) != {} && Known(Tail(e.id), incoming) != {}
      {
        KnownIs(e.code, previous);
        assert Kept(e.code, previous, incoming) && Kept(Tail(e.id), previous, incoming);
      }
    }
  }

  lemma StillKnown(code: string, previous: seq<Entry>, incoming: seq<Entry>)
    requires NoneForgotten(previous, incoming) && Known(code, previous) != {}
    ensures Known(code, incoming) != {}
  {
    KnownIs(code, previous);
    var id :| id in Known(code, previous);
    var e :| e in previous && (Tail(e.id) == code || e.code == code) && e.id == id;
  }

  /** What a code stood for, refresh by refresh. */
  function Meanings(code: string, caches: seq<seq<Entry>>): (ms: seq<set<string>>)
    ensures |ms| == |caches|
  {
    seq(|caches|, n requires 0 <= n < |caches| => Known(code, caches[n]))
  }

  /** Once something, the same ever after. */
  predicate Settled(ms: seq<set<string>>) {
    forall n, m :: 0 <= n <= m < |ms| ==> ms[n] == {} || ms[m] == ms[n]
  }

  lemma {:induction false} StepsSettle(ms: seq<set<string>>, n: nat, m: nat)
    requires n <= m < |ms| && (forall i: nat :: i + 1 < |ms| ==> ms[i] == {} || ms[i + 1] == ms[i])
    ensures ms[n] == {} || ms[m] == ms[n]
    decreases m
  {
    if n < m {
      StepsSettle(ms, n, m - 1);
      assert ms[m - 1] == {} || ms[m - 1 + 1] == ms[m - 1];
    }
  }

  lemma MeaningsSettle(code: string, caches: seq<seq<Entry>>)
    requires forall i: nat :: i + 1 < |caches| ==> Kept(code, caches[i], caches[i + 1])
    ensures Settled(Meanings(code, caches))
  {
    var ms := Meanings(code, caches);
    forall i: nat | i + 1 < |ms|
      ensures ms[i] == {} || ms[i + 1] == ms[i]
    {
      assert Kept(code, caches[i], caches[i + 1]);
    }
    forall n, m | 0 <= n <= m < |ms|
      ensures ms[n] == {} || ms[m] == ms[n]
    {
      StepsSettle(ms, n, m);
    }
  }

  lemma StepOfSettled(code: string, caches: seq<seq<Entry>>, n: nat)
    requires Settled(Meanings(code, caches)) && n + 1 < |caches|
    ensures Kept(code, caches[n], caches[n + 1])
  {
    var ms := Meanings(code, caches);
    assert ms[n] == {} || ms[n + 1] == ms[n];
  }

  ghost predicate StepsKeep(caches: seq<seq<Entry>>) {
    forall n: nat :: n + 1 < |caches| ==> Keeps(caches[n], caches[n + 1])
  }

  /**
   Over any sequence of accepted refreshes, every code once learned stands for the same workflows ever after,
   exactly when each refresh keeps the unchecked names and forgets none.
   */
  lemma LearnedForGoodExactlyWhen(caches: seq<seq<Entry>>)
    requires History(caches)
    ensures (forall code :: Settled(Meanings(code, caches))) <==> StepsKeep(caches)
  {
    if StepsKeep(caches) {
      forall code
        ensures Settled(Meanings(code, caches))
      {
        forall n: nat | n + 1 < |caches|
          ensures Kept(code, caches[n], caches[n + 1])
        {
          StepKeepsCode(caches, n, code);
        }
        MeaningsSettle(code, caches);
      }
    }
    if forall code :: Settled(Meanings(code, caches)) {
      forall n: nat | n + 1 < |caches|
        ensures Keeps(caches[n], caches[n + 1])
      {
        SettledStepKeeps(caches, n);
      }
    }
  }

  lemma StepKeepsCode(caches: seq<seq<Entry>>, n: nat, code: string)
    requires History(caches) && StepsKeep(caches) && n + 1 < |caches|
    ensures Kept(code, caches[n], caches[n + 1])
  {
    assert Accepted(caches[n], caches[n + 1]) && Keeps(caches[n], caches[n + 1]);
    KeepsExactlyWhen(caches[n], caches[n + 1]);
  }

  lemma SettledStepKeeps(caches: seq<seq<Entry>>, n: nat)
    requires History(caches) && n + 1 < |caches| && forall code :: Settled(Meanings(code, caches))
    ensures Keeps(caches[n], caches[n + 1])
  {
    var a, b := caches[n], caches[n + 1];
    assert Accepted(a, b);
    forall code
      ensures Kept(code, a, b)
    {
      StepOfSettled(code, caches, n);
    }
    KeepsExactlyWhen(a, b);
  }

  // ----- two refreshes that reassign a code -----

  lemma OneKnown(e: Entry, code: string)
    ensures Known(code, [e]) == if e.code == code || Tail(e.id) == code then {e.id} else {}
  {
    KnownIs(code, [e]);
    assert e in [e];
  }

  predicate StandsFor(code: string, e: Entry) {
    e.code == code || Tail(e.id) == code
  }

  lemma KnownHas(code: string, entries: seq<Entry>, id: string)
    ensures id in Known(code, entries) <==> exists e :: e in entries && e.id == id && StandsFor(code, e)
  {
    KnownIs(code, entries);
    if id in Known(code, entries) {
      var e :| e in entries && e.id == id && (e.code == code || Tail(e.id) == code);
      assert StandsFor(code, e);
    }
  }

  lemma SecondKnown(e: Entry, f: Entry, code: string)
    requires !StandsFor(code, e) && StandsFor(code, f)
    ensures Known(code, [e, f]) == {f.id}
  {
    assert [e, f][1] == f;
    forall id
      ensures id in Known(code, [e, f]) <==> id == f.id
    {
      KnownHas(code, [e, f], id);
      assert f in [e, f] && StandsFor(code, f);
    }
  }

  /**
   A code is learned for x; the new catalog gives x another code, and has a workflow y whose name is the old
   code. That is accepted, and the code now resolves to y.
   */
  lemma NameTakesCode(x: Entry, x': Entry, y: Entry)
    requires x'.id == x.id && x.code == Tail(y.id) && Tail(x.id) != x.code
    requires x'.code != x.code && x'.code != Tail(x.id)
    requires y.code != x.code && y.code != Tail(x.id)
    ensures Accepted([x], [x', y])
    ensures Resolve(x.code, "", {}, [x]) == Ok(x.id)
    ensures Resolve(x.code, "", {}, [x', y]) == Ok(y.id)
  {
    forall e | e in [x', y]
      ensures Kept(e.code, [x], [x', y])
    {
      OneKnown(x, e.code);
    }
    MovedCode(x, x', y);
  }

  lemma MovedCode(x: Entry, x': Entry, y: Entry)
    requires x'.id == x.id && x.code == Tail(y.id) && Tail(x.id) != x.code && x'.code != x.code
    ensures Resolve(x.code, "", {}, [x]) == Ok(x.id)
    ensures Resolve(x.code, "", {}, [x', y]) == Ok(y.id)
  {
    OneKnown(x, x.code);
    SecondKnown(x', y, x.code);
    assert x.id + "" == x.id && y.id + "" == y.id;
    ResolveIs(x.code, "", x.id, {}, [x]);
    ResolveIs(x.code, "", y.id, {}, [x', y]);
  }

  lemma EmptyAccepts(y: Entry)
    ensures Accepted([], [y])
  {
    forall e | e in [y]
      ensures Kept(e.code, [], [y])
    {
      assert Known(e.code, []) == {};
    }
  }

  lemma OwnCode(e: Entry)
    ensures Resolve(e.code, "", {}, [e]) == Ok(e.id)
  {
    OneKnown(e, e.code);
    assert e.id + "" == e.id;
    ResolveIs(e.code, "", e.id, {}, [e]);
  }

  /** A code that one catalog leaves out is free again, and the next may give it to another workflow. */
  lemma ForgottenCodeIsReassigned(x: Entry, y: Entry)
    requires x.code == y.code && x.id != y.id
    ensures Accepted([x], []) && Accepted([], [y])
    ensures Resolve(x.code, "", {}, [x]) == Ok(x.id) && Resolve(x.code, "", {}, [y]) == Ok(y.id)
  {
    EmptyAccepts(y);
    OwnCode(x);
    OwnCode(y);
  }

  // ----- the cache file -----

  class CatalogCache {
    /** The rows of a readable cache file; None when it is missing or cannot be read. */
    var rows: Option<seq<Entry>>

    constructor (rows: Option<seq<Entry>>)
      ensures this.rows == rows
    {
      this.rows := rows;
    }

    function Read(): seq<Entry>
      reads this
    {
      if rows.Some? then rows.value else []
    }

    /** `fits`: the new file is within the size limit of an index. */
    method Write(entries: seq<Entry>, fits: bool) returns (ok: bool)
      modifies this
      ensures ok <==> fits && Accepted(old(Read()), entries)
      ensures ok ==> Read() == entries && rows.Some?
      ensures ok && NamesKept(old(Read()), entries) ==> forall code :: !Reassigned(code, old(Read()), entries)
      ensures !ok ==> rows == old(rows)
    {
      var previous := Read();
      var kept := CheckCodes(previous, entries);
      if !kept || !fits {
        return false;
      }
      NoneReassignedExactlyWhen(previous, entries);
      rows := Some(entries);
      return true;
    }
  }

  method CheckCodes(previous: seq<Entry>, entries: seq<Entry>) returns (kept: bool)
    ensures kept <==> Accepted(previous, entries)
  {
    var i := 0;
    while i < |entries|
      invariant i <= |entries|
      invariant forall k :: 0 <= k < i ==> Kept(entries[k].code, previous, entries)
    {
      if !Kept(entries[i].code, previous, entries) {
        assert entries[i] in entries;
        return false;
      }
      i := i + 1;
    }
    return true;
  }
}
