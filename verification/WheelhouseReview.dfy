/**
 What an accepted Worker wheelhouse promises, said of its wheels and their Requires-Dist headers alone, and the
 check itself (validate_windows_worker_runtime_wheelhouse in src/vgen/cli/worker_bundle.py).
 */
module WheelhouseReview {
  import opened Common
  import opened PackageNames
  import opened Wheelhouse

  // ----- the promise -----

  /** A requirement counts when it has no marker, or its marker holds with this extra. */
  predicate Active(lib: Library, patch: nat, r: Requirement, extra: string) {
    r.marker == None || lib.evaluate(r.marker.value, patch, extra) == Holds
  }

  /** A wheel of the required name is there, of an admitted version, and no URL stands in for it. */
  ghost predicate Met(wheels: seq<Wheel>, lib: Library, r: Requirement) {
    && !r.url
    && exists k :: 0 <= k < |wheels| && wheels[k].distribution == Canonical(r.name)
                && (r.specifier == "" || lib.admits(r.specifier, wheels[k].version))
  }

  /** A wheel, and the extra with which it is asked for. */
  datatype Stop = Stop(wheel: nat, extra: string)

  /** Header i of the first asks for the second. */
  ghost predicate Asks(wheels: seq<Wheel>, lib: Library, patch: nat, a: Stop, i: nat, b: Stop) {
    && a.wheel < |wheels| && b.wheel < |wheels|
    && i < |wheels[a.wheel].headers| && wheels[a.wheel].headers[i].Parsed?
    && var r := wheels[a.wheel].headers[i].requirement;
    && Active(lib, patch, r, a.extra)
    && wheels[b.wheel].distribution == Canonical(r.name)
    && (b.extra == "" || b.extra in r.extras)
  }

  ghost predicate Leads(wheels: seq<Wheel>, lib: Library, patch: nat, a: Stop, b: Stop) {
    exists i: nat :: Asks(wheels, lib, patch, a, i, b)
  }

  /** From vgen, plain or with worker-comfyui, requirement by requirement. */
  ghost predicate Route(wheels: seq<Wheel>, lib: Library, patch: nat, p: seq<Stop>) {
    && p != [] && p[0].wheel < |wheels| && wheels[p[0].wheel].distribution == "vgen"
    && (p[0].extra == "" || p[0].extra == "worker-comfyui")
    && forall k :: 0 < k < |p| ==> Leads(wheels, lib, patch, p[k - 1], p[k])
  }

  ghost predicate Needed(wheels: seq<Wheel>, lib: Library, patch: nat, a: Stop) {
    exists p :: Route(wheels, lib, patch, p) && p[|p| - 1] == a
  }

  /** Header i of a needed wheel is well formed, and met if it counts. */
  ghost predicate HeaderOk(wheels: seq<Wheel>, lib: Library, patch: nat, a: Stop, i: nat)
    requires a.wheel < |wheels| && i < |wheels[a.wheel].headers|
  {
    var h := wheels[a.wheel].headers[i];
    h.Parsed? && (Active(lib, patch, h.requirement, a.extra) ==> Met(wheels, lib, h.requirement))
  }

  ghost predicate AllMet(wheels: seq<Wheel>, lib: Library, patch: nat) {
    forall a: Stop, i: nat :: Needed(wheels, lib, patch, a) && a.wheel < |wheels| && i < |wheels[a.wheel].headers| ==>
      HeaderOk(wheels, lib, patch, a, i)
  }

  /** The wheel is needed under some patch version of Python. */
  ghost predicate Used(wheels: seq<Wheel>, lib: Library, k: nat) {
    exists patch: nat, x :: patch < 100 && Needed(wheels, lib, patch, Stop(k, x))
  }

  /** One wheel per distribution, pip and vgen among them, every need met under every patch, and none to spare. */
  ghost predicate Reviewed(wheels: seq<Wheel>, lib: Library) {
    && (forall i, k :: 0 <= i < k < |wheels| ==> wheels[i].distribution != wheels[k].distribution)
    && (exists k :: 0 <= k < |wheels| && wheels[k].distribution == "pip")
    && (exists k :: 0 <= k < |wheels| && wheels[k].distribution == "vgen")
    && (forall patch: nat :: patch < 100 ==> AllMet(wheels, lib, patch))
    && (forall k: nat :: k < |wheels| && wheels[k].distribution != "pip" ==> Used(wheels, lib, k))
  }

  /** A marker of a needed wheel cannot be evaluated. */
  ghost predicate Unclear(wheels: seq<Wheel>, lib: Library, patch: nat) {
    exists a: Stop, i: nat ::
      Needed(wheels, lib, patch, a) && a.wheel < |wheels| && UnclearHeader(wheels, lib, patch, a, i)
  }

  predicate UnclearHeader(wheels: seq<Wheel>, lib: Library, patch: nat, a: Stop, i: nat)
    requires a.wheel < |wheels|
  {
    && i < |wheels[a.wheel].headers| && wheels[a.wheel].headers[i].Parsed?
    && var m := wheels[a.wheel].headers[i].requirement.marker;
    m.Some? && lib.evaluate(m.value, patch, a.extra) == Undefined
  }

  // ----- wheels and the index -----

  lemma {:induction false} IndexAt(wheels: seq<Wheel>, k: nat)
    requires Distinct(wheels) && k < |wheels|
    ensures wheels[k].distribution in Index(wheels) && Index(wheels)[wheels[k].distribution] == wheels[k]
  {
    var n := |wheels| - 1;
    if k < n {
      IndexAt(wheels[..n], k);
      assert wheels[k].distribution != wheels[n].distribution;
    }
  }

  lemma Place(wheels: seq<Wheel>, d: string) returns (k: nat)
    requires Distinct(wheels) && d in Index(wheels)
    ensures k < |wheels| && wheels[k].distribution == d && Index(wheels)[d] == wheels[k]
  {
    IndexKeys(wheels);
    k :| 0 <= k < |wheels| && wheels[k].distribution == d;
    IndexAt(wheels, k);
  }

  function NodeOf(wheels: seq<Wheel>, a: Stop): Node
    requires a.wheel < |wheels|
  {
    (wheels[a.wheel].distribution, a.extra)
  }

  lemma LeadsIsEdge(wheels: seq<Wheel>, lib: Library, patch: nat, a: Stop, b: Stop)
    requires Distinct(wheels) && a.wheel < |wheels| && b.wheel < |wheels|
    ensures Leads(wheels, lib, patch, a, b) <==> Edge(Index(wheels), lib, patch, NodeOf(wheels, a), NodeOf(wheels, b))
  {
    var house, n, m := Index(wheels), NodeOf(wheels, a), NodeOf(wheels, b);
    IndexAt(wheels, a.wheel);
    if i: nat :| Asks(wheels, lib, patch, a, i, b) {
      assert Requires(house, lib, patch, n, i, m);
    }
    if i: nat :| Requires(house, lib, patch, n, i, m) {
      assert Asks(wheels, lib, patch, a, i, b);
    }
  }

  lemma {:induction false} RouteReaches(wheels: seq<Wheel>, lib: Library, patch: nat, p: seq<Stop>)
    requires Distinct(wheels) && Route(wheels, lib, patch, p)
    ensures p[|p| - 1].wheel < |wheels| && Reachable(Index(wheels), lib, patch, NodeOf(wheels, p[|p| - 1]))
    decreases |p|
  {
    var k := |p| - 1;
    if k == 0 {
      RootReachable(Index(wheels), lib, patch);
    } else {
      assert Route(wheels, lib, patch, p[..k]);
      RouteReaches(wheels, lib, patch, p[..k]);
      assert Leads(wheels, lib, patch, p[k - 1], p[k]);
      LeadsIsEdge(wheels, lib, patch, p[k - 1], p[k]);
      EdgeReachable(Index(wheels), lib, patch, NodeOf(wheels, p[k - 1]), NodeOf(wheels, p[k]));
    }
  }

  lemma {:induction false} PathNeeds(wheels: seq<Wheel>, lib: Library, patch: nat, p: seq<Node>, k: nat)
    requires Distinct(wheels) && Path(Index(wheels), lib, patch, p)
    requires k < |wheels| && wheels[k].distribution == p[|p| - 1].0
    ensures Needed(wheels, lib, patch, Stop(k, p[|p| - 1].1))
    decreases |p|
  {
    var n, b := |p| - 1, Stop(k, p[|p| - 1].1);
    if n == 0 {
      assert Route(wheels, lib, patch, [b]);
    } else {
      assert Path(Index(wheels), lib, patch, p[..n]);
      assert Edge(Index(wheels), lib, patch, p[n - 1], p[n]);
      var i: nat :| Requires(Index(wheels), lib, patch, p[n - 1], i, p[n]);
      var j := Place(wheels, p[n - 1].0);
      PathNeeds(wheels, lib, patch, p[..n], j);
      var a := Stop(j, p[n - 1].1);
      LeadsIsEdge(wheels, lib, patch, a, b);
      NeededNext(wheels, lib, patch, a, b);
    }
  }

  lemma NeededNext(wheels: seq<Wheel>, lib: Library, patch: nat, a: Stop, b: Stop)
    requires Needed(wheels, lib, patch, a) && Leads(wheels, lib, patch, a, b)
    ensures Needed(wheels, lib, patch, b)
  {
    var p :| Route(wheels, lib, patch, p) && p[|p| - 1] == a;
    assert Route(wheels, lib, patch, p + [b]);
  }

  /** The needed wheels are the reachable nodes. */
  lemma NeededIsReachable(wheels: seq<Wheel>, lib: Library, patch: nat, a: Stop)
    requires Distinct(wheels) && a.wheel < |wheels|
    ensures Needed(wheels, lib, patch, a) <==> Reachable(Index(wheels), lib, patch, NodeOf(wheels, a))
  {
    if p :| Route(wheels, lib, patch, p) && p[|p| - 1] == a {
      RouteReaches(wheels, lib, patch, p);
    }
    if p :| Path(Index(wheels), lib, patch, p) && p[|p| - 1] == NodeOf(wheels, a) {
      PathNeeds(wheels, lib, patch, p, a.wheel);
    }
  }

  lemma MetIsSatisfied(wheels: seq<Wheel>, lib: Library, r: Requirement)
    requires Distinct(wheels)
    ensures Met(wheels, lib, r) <==> Satisfied(Index(wheels), lib, r) && !r.url
  {
    var d := Canonical(r.name);
    if Met(wheels, lib, r) {
      var k :| 0 <= k < |wheels| && wheels[k].distribution == d
            && (r.specifier == "" || lib.admits(r.specifier, wheels[k].version));
      IndexAt(wheels, k);
    }
    if Satisfied(Index(wheels), lib, r) {
      var k := Place(wheels, d);
    }
  }

  lemma FaultyIs(wheels: seq<Wheel>, lib: Library, patch: nat, a: Stop, i: nat)
    requires Distinct(wheels) && a.wheel < |wheels| && i < |wheels[a.wheel].headers|
    ensures HeaderOk(wheels, lib, patch, a, i) <==>
      !Faulty(Index(wheels), lib, patch, NodeOf(wheels, a), wheels[a.wheel].headers[i])
  {
    var h := wheels[a.wheel].headers[i];
    if h.Parsed? {
      MetIsSatisfied(wheels, lib, h.requirement);
    }
  }

  lemma AllMetIs(wheels: seq<Wheel>, lib: Library, patch: nat)
    requires Distinct(wheels)
    ensures AllMet(wheels, lib, patch) <==> !HasFault(Index(wheels), lib, patch)
  {
    var house := Index(wheels);
    if !HasFault(house, lib, patch) {
      forall a: Stop, i: nat | Needed(wheels, lib, patch, a) && a.wheel < |wheels| && i < |wheels[a.wheel].headers|
        ensures HeaderOk(wheels, lib, patch, a, i)
      {
        NeededIsReachable(wheels, lib, patch, a);
        IndexAt(wheels, a.wheel);
        FaultyIs(wheels, lib, patch, a, i);
      }
    }
    if HasFault(house, lib, patch) {
      var n: Node, i: nat :| Reachable(house, lib, patch, n) && n.0 in house && i < |house[n.0].headers|
                          && Faulty(house, lib, patch, n, house[n.0].headers[i]);
      var k := Place(wheels, n.0);
      NeededIsReachable(wheels, lib, patch, Stop(k, n.1));
      FaultyIs(wheels, lib, patch, Stop(k, n.1), i);
    }
  }

  lemma UnclearIs(wheels: seq<Wheel>, lib: Library, patch: nat)
    requires Distinct(wheels)
    ensures Unclear(wheels, lib, patch) <==> HasUndefined(Index(wheels), lib, patch)
  {
    var house := Index(wheels);
    if Unclear(wheels, lib, patch) {
      var a: Stop, i: nat :|
        Needed(wheels, lib, patch, a) && a.wheel < |wheels| && UnclearHeader(wheels, lib, patch, a, i);
      NeededIsReachable(wheels, lib, patch, a);
      IndexAt(wheels, a.wheel);
    }
    if HasUndefined(house, lib, patch) {
      var n: Node, i: nat :| Reachable(house, lib, patch, n) && n.0 in house && i < |house[n.0].headers|
                          && house[n.0].headers[i].Parsed?
                          && Eval(lib, patch, house[n.0].headers[i].requirement, n.1).Undefined?;
      var k := Place(wheels, n.0);
      NeededIsReachable(wheels, lib, patch, Stop(k, n.1));
      assert UnclearHeader(wheels, lib, patch, Stop(k, n.1), i);
    }
  }

  lemma LeadsPlain(wheels: seq<Wheel>, lib: Library, patch: nat, a: Stop, b: Stop)
    requires Leads(wheels, lib, patch, a, b)
    ensures Leads(wheels, lib, patch, a, b.(extra := ""))
  {
    var i: nat :| Asks(wheels, lib, patch, a, i, b);
    assert Asks(wheels, lib, patch, a, i, b.(extra := ""));
  }

  lemma RouteFront(wheels: seq<Wheel>, lib: Library, patch: nat, p: seq<Stop>)
    requires Route(wheels, lib, patch, p) && |p| > 1
    ensures Needed(wheels, lib, patch, p[|p| - 2]) && Leads(wheels, lib, patch, p[|p| - 2], p[|p| - 1])
  {
    var q := p[..|p| - 1];
    assert forall k :: 0 < k < |q| ==> Leads(wheels, lib, patch, q[k - 1], q[k]);
    assert Route(wheels, lib, patch, q) && q[|q| - 1] == p[|p| - 2];
  }

  /** With one extra or another, a wheel that is needed is needed plain. */
  lemma NeededPlain(wheels: seq<Wheel>, lib: Library, patch: nat, k: nat, x: string)
    requires Needed(wheels, lib, patch, Stop(k, x))
    ensures Needed(wheels, lib, patch, Stop(k, ""))
  {
    var p :| Route(wheels, lib, patch, p) && p[|p| - 1] == Stop(k, x);
    if |p| == 1 {
      assert Route(wheels, lib, patch, [Stop(k, "")]);
    } else {
      RouteFront(wheels, lib, patch, p);
      LeadsPlain(wheels, lib, patch, p[|p| - 2], Stop(k, x));
      NeededNext(wheels, lib, patch, p[|p| - 2], Stop(k, ""));
    }
  }

  lemma UsedIs(wheels: seq<Wheel>, lib: Library, k: nat)
    requires Distinct(wheels) && k < |wheels|
    ensures Used(wheels, lib, k) <==> ReachedBefore(Index(wheels), lib, PATCHES, wheels[k].distribution)
  {
    if patch: nat, x :| patch < 100 && Needed(wheels, lib, patch, Stop(k, x)) {
      NeededPlain(wheels, lib, patch, k, x);
      NeededIsReachable(wheels, lib, patch, Stop(k, ""));
    }
    if patch: nat :| patch < PATCHES && Reachable(Index(wheels), lib, patch, (wheels[k].distribution, "")) {
      NeededIsReachable(wheels, lib, patch, Stop(k, ""));
    }
  }

  lemma NoOrphansIs(wheels: seq<Wheel>, lib: Library)
    requires Distinct(wheels)
    ensures NoOrphans(Index(wheels), lib) <==>
      forall k: nat :: k < |wheels| && wheels[k].distribution != "pip" ==> Used(wheels, lib, k)
  {
    forall k: nat | k < |wheels|
      ensures wheels[k].distribution in Index(wheels)
      ensures Used(wheels, lib, k) <==> ReachedBefore(Index(wheels), lib, PATCHES, wheels[k].distribution)
    {
      IndexAt(wheels, k);
      UsedIs(wheels, lib, k);
    }
    forall d | d in Index(wheels)
      ensures exists k: nat :: k < |wheels| && wheels[k].distribution == d
    {
      var k := Place(wheels, d);
    }
  }

  /** What the loops decide is the promise. */
  lemma ReviewedIsAcceptable(wheels: seq<Wheel>, lib: Library)
    ensures Reviewed(wheels, lib) <==> Acceptable(wheels, lib)
  {
    IndexKeys(wheels);
    if Distinct(wheels) {
      forall patch: nat | patch < 100
        ensures AllMet(wheels, lib, patch) <==> !HasFault(Index(wheels), lib, patch)
      {
        AllMetIs(wheels, lib, patch);
      }
      NoOrphansIs(wheels, lib);
    }
  }

  // ----- the check -----

  /**
   validate_windows_worker_runtime_wheelhouse, from the inspected wheels on: an accepted wheelhouse keeps the
   promise, and one that keeps it is accepted unless a marker cannot be evaluated.
   */
  method Validate(wheels: seq<Wheel>, lib: Library) returns (v: Verdict)
    ensures v.Accepted? ==> Reviewed(wheels, lib) && Acceptable(wheels, lib) && v.house == Index(wheels)
    ensures v.Rejected? ==> !Reviewed(wheels, lib) || exists patch: nat :: patch < 100 && Unclear(wheels, lib, patch)
  {
    ReviewedIsAcceptable(wheels, lib);
    var house := map[];
    for k := 0 to |wheels|
      invariant house == Index(wheels[..k]) && Distinct(wheels[..k])
    {
      assert wheels[..k + 1][..k] == wheels[..k];
      IndexKeys(wheels[..k]);
      if wheels[k].distribution in house {
        ghost var j :| 0 <= j < k && wheels[..k][j].distribution == wheels[k].distribution;
        assert wheels[j].distribution == wheels[k].distribution;
        return Rejected(Duplicate(wheels[k].distribution));
      }
      house := house[wheels[k].distribution := wheels[k]];
    }
    assert wheels[..|wheels|] == wheels;
    if BOOTSTRAP !in house {
      return Rejected(NoPip);
    }
    if ROOT !in house {
      return Rejected(NoVgen);
    }
    v := CheckClosures(house, lib);
    if patch: nat :| patch < PATCHES && HasUndefined(house, lib, patch) {
      UnclearIs(wheels, lib, patch);
    }
  }

  // ----- what follows for single headers -----

  lemma RootHeader(wheels: seq<Wheel>, lib: Library, k: nat, i: nat, patch: nat, x: string)
    requires Reviewed(wheels, lib) && k < |wheels| && wheels[k].distribution == "vgen" && i < |wheels[k].headers|
    requires patch < 100 && (x == "" || x == "worker-comfyui")
    ensures HeaderOk(wheels, lib, patch, Stop(k, x), i)
  {
    assert Route(wheels, lib, patch, [Stop(k, x)]);
    assert Needed(wheels, lib, patch, Stop(k, x));
    assert AllMet(wheels, lib, patch);
  }

  /** The requirement's marker holds, plain or with worker-comfyui, under some patch; or it has none. */
  ghost predicate CountsForVgen(lib: Library, r: Requirement) {
    || r.marker.None?
    || exists patch: nat, x ::
         patch < 100 && (x == "" || x == "worker-comfyui") && lib.evaluate(r.marker.value, patch, x) == Holds
  }

  /** In an accepted wheelhouse every header of vgen is well formed, and met if it counts for vgen. */
  lemma HeadersOfVgen(wheels: seq<Wheel>, lib: Library, k: nat, i: nat)
    requires Reviewed(wheels, lib) && k < |wheels| && wheels[k].distribution == "vgen" && i < |wheels[k].headers|
    ensures wheels[k].headers[i].Parsed?
    ensures
      var r := wheels[k].headers[i].requirement;
      CountsForVgen(lib, r) ==> Met(wheels, lib, r)
  {
    RootHeader(wheels, lib, k, i, 0, "");
    var r := wheels[k].headers[i].requirement;
    if r.marker.Some? && CountsForVgen(lib, r) {
      var patch: nat, x :|
        patch < 100 && (x == "" || x == "worker-comfyui") && lib.evaluate(r.marker.value, patch, x) == Holds;
      RootHeader(wheels, lib, k, i, patch, x);
    }
  }

  /** And so on along requirements without markers, wheel by wheel. */
  ghost predicate UnmarkedRoute(wheels: seq<Wheel>, p: seq<nat>) {
    && p != [] && (forall k :: 0 <= k < |p| ==> p[k] < |wheels|) && wheels[p[0]].distribution == "vgen"
    && forall k :: 0 < k < |p| ==> Names(wheels, p[k - 1], p[k])
  }

  ghost predicate Names(wheels: seq<Wheel>, a: nat, b: nat)
    requires a < |wheels| && b < |wheels|
  {
    exists h :: h in wheels[a].headers && h.Parsed? && h.requirement.marker.None?
             && Canonical(h.requirement.name) == wheels[b].distribution
  }

  lemma {:induction false} UnmarkedIsNeeded(wheels: seq<Wheel>, lib: Library, patch: nat, p: seq<nat>)
    requires UnmarkedRoute(wheels, p)
    ensures Needed(wheels, lib, patch, Stop(p[|p| - 1], ""))
    decreases |p|
  {
    var n := |p| - 1;
    if n == 0 {
      assert Route(wheels, lib, patch, [Stop(p[0], "")]);
    } else {
      assert UnmarkedRoute(wheels, p[..n]);
      UnmarkedIsNeeded(wheels, lib, patch, p[..n]);
      assert Names(wheels, p[n - 1], p[n]);
      var h :| h in wheels[p[n - 1]].headers && h.Parsed? && h.requirement.marker.None?
            && Canonical(h.requirement.name) == wheels[p[n]].distribution;
      var i :| 0 <= i < |wheels[p[n - 1]].headers| && wheels[p[n - 1]].headers[i] == h;
      assert Asks(wheels, lib, patch, Stop(p[n - 1], ""), i, Stop(p[n], ""));
      NeededNext(wheels, lib, patch, Stop(p[n - 1], ""), Stop(p[n], ""));
    }
  }

  lemma HeadersAlongUnmarked(wheels: seq<Wheel>, lib: Library, p: seq<nat>, i: nat)
    requires Reviewed(wheels, lib) && UnmarkedRoute(wheels, p) && i < |wheels[p[|p| - 1]].headers|
    ensures
      var h := wheels[p[|p| - 1]].headers[i];
      h.Parsed? && (h.requirement.marker.None? ==> Met(wheels, lib, h.requirement))
  {
    UnmarkedIsNeeded(wheels, lib, 0, p);
    assert AllMet(wheels, lib, 0);
    assert HeaderOk(wheels, lib, 0, Stop(p[|p| - 1], ""), i);
  }

  /**
   Whatever the markers and versions of the rest: a wheelhouse is refused when vgen requires, without a marker, a
   wheel that is missing or not of an admitted version.
   */
  lemma UnmetIsRefused(wheels: seq<Wheel>, lib: Library, k: nat, i: nat)
    requires k < |wheels| && wheels[k].distribution == "vgen" && i < |wheels[k].headers|
    requires wheels[k].headers[i].Parsed? && wheels[k].headers[i].requirement.marker.None?
    requires
      var r := wheels[k].headers[i].requirement;
      forall j :: 0 <= j < |wheels| && wheels[j].distribution == Canonical(r.name) ==>
        r.specifier != "" && !lib.admits(r.specifier, wheels[j].version)
    ensures !Reviewed(wheels, lib)
  {
    if Reviewed(wheels, lib) {
      HeadersOfVgen(wheels, lib, k, i);
    }
  }

  /** A wheelhouse of pip and vgen alone is accepted when vgen requires nothing. */
  lemma BareIsReviewed(pip: Wheel, vgen: Wheel, lib: Library)
    requires pip.distribution == "pip" && vgen.distribution == "vgen" && vgen.headers == []
    ensures Reviewed([pip, vgen], lib)
  {
    var wheels := [pip, vgen];
    forall patch: nat
      ensures AllMet(wheels, lib, patch)
    {
      forall a: Stop | Needed(wheels, lib, patch, a) && a.wheel < |wheels|
        ensures a.wheel == 1
      {
        var p :| Route(wheels, lib, patch, p) && p[|p| - 1] == a;
        BareRoute(wheels, lib, patch, p);
      }
    }
    assert Route(wheels, lib, 0, [Stop(1, "")]);
    assert Needed(wheels, lib, 0, Stop(1, ""));
    assert wheels[0].distribution == "pip" && wheels[1].distribution == "vgen";
  }

  lemma BareRoute(wheels: seq<Wheel>, lib: Library, patch: nat, p: seq<Stop>)
    requires |wheels| == 2 && wheels[0].distribution == "pip" && wheels[1].distribution == "vgen"
    requires wheels[1].headers == [] && Route(wheels, lib, patch, p)
    ensures |p| == 1 && p[0].wheel == 1
  {
    if |p| > 1 {
      FirstLeads(wheels, lib, patch, p);
      assert false;
    }
  }

  lemma FirstLeads(wheels: seq<Wheel>, lib: Library, patch: nat, p: seq<Stop>)
    requires Route(wheels, lib, patch, p) && |p| > 1
    ensures Leads(wheels, lib, patch, p[0], p[1])
  {
  }
}
