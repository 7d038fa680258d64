/**
 The offline dependency closure of the Windows Worker wheelhouse
 (validate_windows_worker_runtime_wheelhouse in src/vgen/cli/worker_bundle.py).

 The specification is a graph.  A node is a distribution in the context of one requested extra ("",
 or the extra's name); an edge follows a requirement whose marker holds in that context.  The nested
 loops compute exactly the nodes reachable from vgen[worker-comfyui], and the wheelhouse passes
 exactly when no reachable requirement is faulty and no wheel is left over.  Marker evaluation and
 version matching belong to the `packaging` library and are parameters.
 */
module Wheelhouse {
  import opened Common
  import opened PackageNames

  datatype RequirementFields = Requirement(
    name: string, marker: Option<string>, specifier: string, url: bool, extras: set<string>)

  /** What packaging's parser yields: a PEP 508 name, and extras that are never the empty string. */
  type Requirement = r: RequirementFields | ValidName(r.name) && "" !in r.extras
    witness Requirement("a", None, "", false, {})

  /** A Requires-Dist header: unparsable, or a requirement. */
  datatype Header = Malformed | Parsed(requirement: Requirement)

  datatype Wheel = Wheel(distribution: string, version: string, sha256: string, headers: seq<Header>)

  datatype Outcome = Holds | Fails | Undefined

  /** `evaluate(marker, patch, extra)` and `admits(specifier, version)` of the packaging library. */
  datatype Library = Library(evaluate: (string, nat, string) -> Outcome, admits: (string, string) -> bool)

  type House = map<string, Wheel>
  type Node = (string, string)

  const ROOT := "vgen"
  const ROOT_EXTRA := "worker-comfyui"
  const BOOTSTRAP := "pip"
  const PATCHES := 100

  function Eval(lib: Library, patch: nat, r: Requirement, extra: string): Outcome {
    if r.marker.None? then Holds else lib.evaluate(r.marker.value, patch, extra)
  }

  predicate Satisfied(house: House, lib: Library, r: Requirement) {
    && Canonical(r.name) in house
    && (r.specifier == "" || lib.admits(r.specifier, house[Canonical(r.name)].version))
  }

  // ----- the specification -----

  ghost predicate Requires(house: House, lib: Library, patch: nat, n: Node, i: nat, m: Node) {
    && n.0 in house && i < |house[n.0].headers| && house[n.0].headers[i].Parsed?
    && var r := house[n.0].headers[i].requirement;
    && Eval(lib, patch, r, n.1).Holds?
    && m.0 == Canonical(r.name)
    && (m.1 == "" || m.1 in r.extras)
  }

  ghost predicate Edge(house: House, lib: Library, patch: nat, n: Node, m: Node) {
    exists i: nat :: Requires(house, lib, patch, n, i, m)
  }

  ghost predicate Path(house: House, lib: Library, patch: nat, p: seq<Node>) {
    && p != []
    && (p[0] == (ROOT, "") || p[0] == (ROOT, ROOT_EXTRA))
    && forall k :: 0 < k < |p| ==> Edge(house, lib, patch, p[k - 1], p[k])
  }

  ghost predicate Reachable(house: House, lib: Library, patch: nat, n: Node) {
    exists p :: Path(house, lib, patch, p) && p[|p| - 1] == n
  }

  /** A header that makes the wheelhouse unusable in context n, markers being defined. */
  ghost predicate Faulty(house: House, lib: Library, patch: nat, n: Node, h: Header) {
    h.Malformed? ||
    (Eval(lib, patch, h.requirement, n.1).Holds? && (!Satisfied(house, lib, h.requirement) || h.requirement.url))
  }

  ghost predicate HasFault(house: House, lib: Library, patch: nat) {
    exists n: Node, i: nat :: Reachable(house, lib, patch, n) && n.0 in house && i < |house[n.0].headers|
      && Faulty(house, lib, patch, n, house[n.0].headers[i])
  }

  ghost predicate HasUndefined(house: House, lib: Library, patch: nat) {
    exists n: Node, i: nat :: Reachable(house, lib, patch, n) && n.0 in house && i < |house[n.0].headers|
      && house[n.0].headers[i].Parsed? && Eval(lib, patch, house[n.0].headers[i].requirement, n.1).Undefined?
  }

  lemma RootReachable(house: House, lib: Library, patch: nat)
    ensures Reachable(house, lib, patch, (ROOT, "")) && Reachable(house, lib, patch, (ROOT, ROOT_EXTRA))
  {
    assert Path(house, lib, patch, [(ROOT, "")]) && Path(house, lib, patch, [(ROOT, ROOT_EXTRA)]);
  }

  lemma EdgeReachable(house: House, lib: Library, patch: nat, n: Node, m: Node)
    requires Reachable(house, lib, patch, n) && Edge(house, lib, patch, n, m)
    ensures Reachable(house, lib, patch, m)
  {
    var p :| Path(house, lib, patch, p) && p[|p| - 1] == n;
    assert Path(house, lib, patch, p + [m]);
  }

  // ----- the state of the loops -----

  /** `environment_reachable` and `requested_extras`. */
  datatype Closure = Closure(reach: set<string>, extras: map<string, set<string>>)

  function Contexts(c: Closure, d: string): set<string> {
    {""} + if d in c.extras then c.extras[d] else {}
  }

  ghost predicate Has(c: Closure, n: Node) {
    n.0 in c.reach && n.1 in Contexts(c, n.0)
  }

  /** All nodes there can be: the bound for termination. */
  ghost function Universe(house: House): set<Node> {
    set d, x | d in house && x in AllExtras(house) :: (d, x)
  }

  ghost function AllExtras(house: House): set<string> {
    {"", ROOT_EXTRA} +
    set d, i, x | d in house && 0 <= i < |house[d].headers| && house[d].headers[i].Parsed?
                  && x in house[d].headers[i].requirement.extras :: x
  }

  ghost function Nodes(house: House, c: Closure): set<Node> {
    set n | n in Universe(house) && Has(c, n) :: n
  }

  ghost predicate ClosureOk(house: House, lib: Library, patch: nat, c: Closure) {
    && c.reach <= house.Keys && c.extras.Keys == c.reach
    && ROOT in c.reach && ROOT_EXTRA in c.extras[ROOT]
    && (forall d :: d in c.reach ==> c.extras[d] <= AllExtras(house))
    && (forall n :: Has(c, n) ==> Reachable(house, lib, patch, n))
  }

  /** The closure already holds everything header i of d asks for, in the given contexts. */
  ghost predicate Absorbed(house: House, lib: Library, patch: nat, c: Closure, d: string, xs: set<string>, i: nat)
    requires d in house && i < |house[d].headers|
  {
    var h := house[d].headers[i];
    && h.Parsed?
    && forall x :: x in xs && Eval(lib, patch, h.requirement, x).Holds? ==>
         && Satisfied(house, lib, h.requirement) && !h.requirement.url
         && Canonical(h.requirement.name) in c.reach
         && h.requirement.extras <= Contexts(c, Canonical(h.requirement.name))
  }

  ghost predicate Saturated(house: House, lib: Library, patch: nat, c: Closure, ds: set<string>) {
    forall d, i: nat :: d in ds && d in house && i < |house[d].headers| ==>
      Absorbed(house, lib, patch, c, d, Contexts(c, d), i)
  }

  lemma SaturatedStep(house: House, lib: Library, patch: nat, c: Closure, n: Node, m: Node)
    requires Saturated(house, lib, patch, c, c.reach) && Has(c, n) && Edge(house, lib, patch, n, m)
    ensures Has(c, m)
  {
    var i: nat :| Requires(house, lib, patch, n, i, m);
    assert Absorbed(house, lib, patch, c, n.0, Contexts(c, n.0), i);
  }

  /** At a fixed point the closure is the whole reachable set. */
  lemma {:induction false} SaturatedReaches(house: House, lib: Library, patch: nat, c: Closure, p: seq<Node>)
    requires ClosureOk(house, lib, patch, c) && Path(house, lib, patch, p)
    requires Saturated(house, lib, patch, c, c.reach)
    ensures Has(c, p[|p| - 1])
    decreases |p|
  {
    if |p| > 1 {
      var k := |p| - 1;
      assert Path(house, lib, patch, p[..k]);
      SaturatedReaches(house, lib, patch, c, p[..k]);
      SaturatedStep(house, lib, patch, c, p[k - 1], p[k]);
    }
  }

  lemma SaturatedIsReachable(house: House, lib: Library, patch: nat, c: Closure)
    requires ClosureOk(house, lib, patch, c) && Saturated(house, lib, patch, c, c.reach)
    ensures !HasFault(house, lib, patch)
    ensures forall n :: Has(c, n) <==> Reachable(house, lib, patch, n)
  {
    forall n | Reachable(house, lib, patch, n)
      ensures Has(c, n)
    {
      var p :| Path(house, lib, patch, p) && p[|p| - 1] == n;
      SaturatedReaches(house, lib, patch, c, p);
    }
    forall n: Node, i: nat | Reachable(house, lib, patch, n) && n.0 in house && i < |house[n.0].headers|
      ensures !Faulty(house, lib, patch, n, house[n.0].headers[i])
    {
      assert Absorbed(house, lib, patch, c, n.0, Contexts(c, n.0), i);
    }
  }

  /** The second closure holds all of the first, and more nodes unless it is the same. */
  ghost predicate Grows(house: House, c: Closure, c': Closure) {
    && Nodes(house, c) <= Nodes(house, c')
    && (c != c' ==> Nodes(house, c) != Nodes(house, c'))
    && c.reach <= c'.reach
    && forall d :: d in c.reach ==> Contexts(c, d) <= Contexts(c', d)
  }

  lemma GrowthShrinksRest(house: House, c: Closure, c': Closure)
    requires Nodes(house, c) < Nodes(house, c')
    ensures |Universe(house) - Nodes(house, c')| < |Universe(house) - Nodes(house, c)|
  {
    var a, b := Universe(house) - Nodes(house, c'), Universe(house) - Nodes(house, c);
    assert a < b;
    SubsetSize(a, b);
  }

  // ----- the loops -----

  /** any(marker.evaluate(...) for extra in contexts): contexts in no particular order, stopping early. */
  method AnyHolds(lib: Library, patch: nat, r: Requirement, contexts: set<string>) returns (a: Outcome)
    ensures a.Holds? ==> exists x :: x in contexts && Eval(lib, patch, r, x).Holds?
    ensures a.Fails? ==> forall x :: x in contexts ==> Eval(lib, patch, r, x).Fails?
    ensures a.Undefined? ==> exists x :: x in contexts && Eval(lib, patch, r, x).Undefined?
  {
    var rest := contexts;
    while rest != {}
      invariant rest <= contexts
      invariant forall x :: x in contexts - rest ==> Eval(lib, patch, r, x).Fails?
      decreases |rest|
    {
      var x :| x in rest;
      rest := rest - {x};
      var e := Eval(lib, patch, r, x);
      if e != Fails {
        return e;
      }
    }
    return Fails;
  }

  /** One requirement of d, whose contexts were read as xs: an error, or the enlarged closure. */
  method Absorb(house: House, lib: Library, patch: nat, c: Closure, d: string, xs: set<string>, i: nat)
    returns (c': Option<Closure>)
    requires ClosureOk(house, lib, patch, c) && d in c.reach && i < |house[d].headers|
    requires "" in xs && xs <= Contexts(c, d)
    ensures c'.None? ==> HasFault(house, lib, patch) || HasUndefined(house, lib, patch)
    ensures c'.Some? ==> ClosureOk(house, lib, patch, c'.value) && Grows(house, c, c'.value)
    ensures c'.Some? ==> Absorbed(house, lib, patch, c'.value, d, xs, i)
  {
    var h := house[d].headers[i];
    forall x | x in xs
      ensures Reachable(house, lib, patch, (d, x))
    {
      assert Has(c, (d, x));
    }
    if h.Malformed? {
      assert Faulty(house, lib, patch, (d, ""), h);
      return None;
    }
    var r := h.requirement;
    var active := AnyHolds(lib, patch, r, xs);
    if active.Undefined? {
      return None;
    }
    if active.Fails? {
      return Some(c);
    }
    ghost var x :| x in xs && Eval(lib, patch, r, x).Holds?;
    if !Satisfied(house, lib, r) || r.url {
      assert Faulty(house, lib, patch, (d, x), h);
      return None;
    }
    var dep := Canonical(r.name);
    var before := if dep in c.extras then c.extras[dep] else {};
    var next := Closure(c.reach + {dep}, c.extras[dep := before + r.extras]);
    AddKeepsOk(house, lib, patch, c, d, x, i, next);
    AddGrows(house, c, r, dep, next);
    return Some(next);
  }

  lemma AddKeepsOk(house: House, lib: Library, patch: nat, c: Closure, d: string, x: string, i: nat, next: Closure)
    requires ClosureOk(house, lib, patch, c) && Has(c, (d, x)) && i < |house[d].headers| && house[d].headers[i].Parsed?
    requires Eval(lib, patch, house[d].headers[i].requirement, x).Holds?
    requires Canonical(house[d].headers[i].requirement.name) in house
    requires next == Added(c, Canonical(house[d].headers[i].requirement.name), house[d].headers[i].requirement.extras)
    ensures ClosureOk(house, lib, patch, next)
    ensures house[d].headers[i].requirement.extras <= AllExtras(house)
  {
    forall n | Has(next, n)
      ensures Reachable(house, lib, patch, n)
    {
      if !Has(c, n) {
        assert Requires(house, lib, patch, (d, x), i, n);
        EdgeReachable(house, lib, patch, (d, x), n);
      }
    }
  }

  function Added(c: Closure, dep: string, extras: set<string>): Closure {
    Closure(c.reach + {dep}, c.extras[dep := (if dep in c.extras then c.extras[dep] else {}) + extras])
  }

  lemma AddGrows(house: House, c: Closure, r: Requirement, dep: string, next: Closure)
    requires c.extras.Keys == c.reach && dep in house && r.extras <= AllExtras(house)
    requires next == Added(c, dep, r.extras)
    ensures Grows(house, c, next)
  {
    if dep !in c.reach {
      InUniverse(house, dep, "");
      assert (dep, "") in Nodes(house, next) && (dep, "") !in Nodes(house, c);
    } else if next != c {
      assert next.reach == c.reach && next.extras == c.extras[dep := next.extras[dep]];
      assert next.extras[dep] != c.extras[dep];
      var e :| e in r.extras && e !in c.extras[dep];
      InUniverse(house, dep, e);
      assert (dep, e) in Nodes(house, next) && (dep, e) !in Nodes(house, c);
    }
  }

  lemma InUniverse(house: House, d: string, x: string)
    requires d in house && x in AllExtras(house)
    ensures (d, x) in Universe(house)
  {
  }

  /** The loop over the requirements of one distribution. */
  method VisitDistribution(house: House, lib: Library, patch: nat, c: Closure, d: string) returns (c': Option<Closure>)
    requires ClosureOk(house, lib, patch, c) && d in c.reach
    ensures c'.None? ==> HasFault(house, lib, patch) || HasUndefined(house, lib, patch)
    ensures c'.Some? ==> ClosureOk(house, lib, patch, c'.value) && Grows(house, c, c'.value)
    ensures c' == Some(c) ==> Saturated(house, lib, patch, c, {d})
  {
    var closure := c;
    var contexts := Contexts(c, d);
    for i := 0 to |house[d].headers|
      invariant ClosureOk(house, lib, patch, closure) && Grows(house, c, closure)
      invariant closure == c ==> forall j: nat :: j < i ==> Absorbed(house, lib, patch, c, d, contexts, j)
    {
      var next := Absorb(house, lib, patch, closure, d, contexts, i);
      if next.None? {
        return None;
      }
      closure := next.value;
    }
    return Some(closure);
  }

  /** One turn of `while changed`: every distribution reached when the turn began. */
  method Pass(house: House, lib: Library, patch: nat, c: Closure) returns (c': Option<Closure>)
    requires ClosureOk(house, lib, patch, c)
    ensures c'.None? ==> HasFault(house, lib, patch) || HasUndefined(house, lib, patch)
    ensures c'.Some? ==> ClosureOk(house, lib, patch, c'.value) && Grows(house, c, c'.value)
    ensures c' == Some(c) ==> Saturated(house, lib, patch, c, c.reach)
  {
    var closure, todo := c, c.reach;
    while todo != {}
      invariant ClosureOk(house, lib, patch, closure) && Grows(house, c, closure) && todo <= c.reach
      invariant closure == c ==> Saturated(house, lib, patch, c, c.reach - todo)
      decreases |todo|
    {
      var d :| d in todo;
      todo := todo - {d};
      var next := VisitDistribution(house, lib, patch, closure, d);
      if next.None? {
        return None;
      }
      closure := next.value;
    }
    return Some(closure);
  }

  lemma StartOk(house: House, lib: Library, patch: nat)
    requires ROOT in house
    ensures ClosureOk(house, lib, patch, Closure({ROOT}, map[ROOT := {ROOT_EXTRA}]))
  {
    RootReachable(house, lib, patch);
    forall n | Has(Closure({ROOT}, map[ROOT := {ROOT_EXTRA}]), n)
      ensures Reachable(house, lib, patch, n)
    {
      assert n == (ROOT, "") || n == (ROOT, ROOT_EXTRA);
    }
  }

  /** The nested fixpoint for one Python patch version. */
  method Close(house: House, lib: Library, patch: nat) returns (c: Option<Closure>)
    requires ROOT in house
    ensures c.None? ==> HasFault(house, lib, patch) || HasUndefined(house, lib, patch)
    ensures c.Some? ==> !HasFault(house, lib, patch) && c.value.reach <= house.Keys
    ensures c.Some? ==> forall n :: Has(c.value, n) <==> Reachable(house, lib, patch, n)
  {
    var closure := Closure({ROOT}, map[ROOT := {ROOT_EXTRA}]);
    StartOk(house, lib, patch);
    var changed := true;
    while changed
      invariant ClosureOk(house, lib, patch, closure)
      invariant !changed ==> Saturated(house, lib, patch, closure, closure.reach)
      decreases |Universe(house) - Nodes(house, closure)|, changed
    {
      var next := Pass(house, lib, patch, closure);
      if next.None? {
        return None;
      }
      changed := next.value != closure;
      if changed {
        GrowthShrinksRest(house, closure, next.value);
      }
      closure := next.value;
    }
    SaturatedIsReachable(house, lib, patch, closure);
    return Some(closure);
  }

  /** The reachable nodes are the least set that holds the roots and is closed under requirements. */
  lemma {:induction false} ReachableIsLeast(house: House, lib: Library, patch: nat, s: set<Node>, p: seq<Node>)
    requires (ROOT, "") in s && (ROOT, ROOT_EXTRA) in s
    requires forall n, m :: n in s && Edge(house, lib, patch, n, m) ==> m in s
    requires Path(house, lib, patch, p)
    ensures p[|p| - 1] in s
    decreases |p|
  {
    if |p| > 1 {
      var k := |p| - 1;
      assert Path(house, lib, patch, p[..k]);
      ReachableIsLeast(house, lib, patch, s, p[..k]);
      assert Edge(house, lib, patch, p[k - 1], p[k]);
    }
  }

  // ----- the whole check -----

  datatype Verdict = Accepted(house: House) | Rejected(why: Reason)
  datatype Reason =
    | Duplicate(distribution: string) | NoPip | NoVgen | BadDependency(patch: nat) | Orphans(ds: set<string>)

  ghost predicate Distinct(wheels: seq<Wheel>) {
    forall i, k :: 0 <= i < k < |wheels| ==> wheels[i].distribution != wheels[k].distribution
  }

  function Index(wheels: seq<Wheel>): House {
    if wheels == [] then map[]
    else var w := wheels[|wheels| - 1]; Index(wheels[..|wheels| - 1])[w.distribution := w]
  }

  lemma {:induction false} IndexKeys(wheels: seq<Wheel>)
    ensures forall d :: d in Index(wheels) <==> exists k :: 0 <= k < |wheels| && wheels[k].distribution == d
    ensures forall d :: d in Index(wheels) ==> Index(wheels)[d].distribution == d && Index(wheels)[d] in wheels
  {
    if wheels != [] {
      var n := |wheels| - 1;
      IndexKeys(wheels[..n]);
      forall d | d in Index(wheels)
        ensures exists k :: 0 <= k < |wheels| && wheels[k].distribution == d
      {
        if d == wheels[n].distribution {
          assert wheels[n].distribution == d;
        } else {
          assert d in Index(wheels[..n]);
          var k :| 0 <= k < n && wheels[..n][k].distribution == d;
          assert wheels[k].distribution == d;
        }
      }
    }
  }

  /** No wheel is outside the union of the closures, pip excepted. */
  ghost predicate NoOrphans(house: House, lib: Library) {
    forall d :: d in house && d != BOOTSTRAP ==> ReachedBefore(house, lib, PATCHES, d)
  }

  ghost predicate ReachedBefore(house: House, lib: Library, patches: nat, d: string) {
    exists p: nat :: p < patches && Reachable(house, lib, p, (d, ""))
  }

  ghost predicate FaultFree(house: House, lib: Library, patches: nat) {
    forall p: nat :: p < patches ==> !HasFault(house, lib, p)
  }

  lemma FaultFreeNext(house: House, lib: Library, patch: nat)
    requires FaultFree(house, lib, patch) && !HasFault(house, lib, patch)
    ensures FaultFree(house, lib, patch + 1)
  {
    forall p: nat | p < patch + 1
      ensures !HasFault(house, lib, p)
    {
      if p == patch {
      }
    }
  }

  ghost predicate Acceptable(wheels: seq<Wheel>, lib: Library) {
    && Distinct(wheels)
    && BOOTSTRAP in Index(wheels) && ROOT in Index(wheels)
    && FaultFree(Index(wheels), lib, PATCHES)
    && NoOrphans(Index(wheels), lib)
  }

  /** The loop over the Python patch versions; `bad` is the first patch that is refused. */
  method UnionOfClosures(house: House, lib: Library) returns (reachable: set<string>, bad: Option<nat>)
    requires ROOT in house
    ensures bad.None? ==> FaultFree(house, lib, PATCHES)
    ensures bad.None? ==> forall d :: d in reachable <==> ReachedBefore(house, lib, PATCHES, d)
    ensures bad.Some? ==> bad.value < PATCHES
    ensures bad.Some? ==> HasFault(house, lib, bad.value) || HasUndefined(house, lib, bad.value)
  {
    reachable := {};
    for patch := 0 to PATCHES
      invariant FaultFree(house, lib, patch)
      invariant forall d :: d in reachable <==> ReachedBefore(house, lib, patch, d)
    {
      var c := Close(house, lib, patch);
      if c.None? {
        return reachable, Some(patch);
      }
      FaultFreeNext(house, lib, patch);
      ReachedNext(house, lib, patch, c.value);
      reachable := reachable + c.value.reach;
    }
    bad := None;
  }

  method CheckClosures(house: House, lib: Library) returns (v: Verdict)
    requires ROOT in house
    ensures v.Accepted? ==> v.house == house && NoOrphans(house, lib)
    ensures v.Accepted? ==> FaultFree(house, lib, PATCHES)
    ensures v.Rejected? ==>
      || !NoOrphans(house, lib)
      || exists patch: nat :: patch < PATCHES && (HasFault(house, lib, patch) || HasUndefined(house, lib, patch))
  {
    var reachable, bad := UnionOfClosures(house, lib);
    if bad.Some? {
      return Rejected(BadDependency(bad.value));
    }
    var orphans := house.Keys - reachable - {BOOTSTRAP};
    if orphans != {} {
      ghost var d :| d in orphans;
      assert !ReachedBefore(house, lib, PATCHES, d);
      return Rejected(Orphans(orphans));
    }
    forall d | d in house && d != BOOTSTRAP
      ensures ReachedBefore(house, lib, PATCHES, d)
    {
      assert d !in orphans;
    }
    return Accepted(house);
  }

  lemma ReachedNext(house: House, lib: Library, patch: nat, c: Closure)
    requires forall n :: Has(c, n) <==> Reachable(house, lib, patch, n)
    ensures forall d :: ReachedBefore(house, lib, patch + 1, d) <==> ReachedBefore(house, lib, patch, d) || d in c.reach
  {
    forall d
      ensures ReachedBefore(house, lib, patch + 1, d) <==> ReachedBefore(house, lib, patch, d) || d in c.reach
    {
      assert Has(c, (d, "")) <==> d in c.reach;
    }
  }
}
