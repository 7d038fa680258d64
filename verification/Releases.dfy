/**
 Publishing immutable releases (build_public_release in tools/build_public_release.py) while upgrade
 clients (src/vgen/cli/upgrade.py) read them: any number of publishers and clients over one release
 root, any of which may stop at any point.

 SHA-256 is injective and the manifest's JSON decodes to what was encoded; both are parameters.
 */
module Releases {
  import opened Common

  type Bytes = seq<int>

  /** The file names of a version directory, which differ from each other for every version. */
  datatype FileName =
    | MacBundle(version: string)
    | WindowsInstaller(version: string)
    | ManifestJson
    | OtherFile(name: string)

  /** The name, kind and platform of a manifest's artifact. */
  datatype Role = MacosCli | WindowsWorkerInstaller | OtherRole(name: string)

  datatype Artifact = Artifact(role: Role, filename: FileName, size: nat, digest: string)
  datatype Manifest = Manifest(version: string, publishedAt: string, artifacts: seq<Artifact>)

  datatype Codec = Codec(sha: Bytes -> string, encode: Manifest -> Bytes, decode: Bytes -> Option<Manifest>)

  ghost predicate Lawful(c: Codec) {
    && (forall a, b :: c.sha(a) == c.sha(b) ==> a == b)
    && (forall m :: c.decode(c.encode(m)) == Some(m))
  }

  /** The inputs of one build: the bundles as they were when their metadata was taken. */
  datatype Build = Build(version: string, publishedAt: string, mac: Bytes, win: Bytes)

  function MacArtifact(c: Codec, b: Build): Artifact {
    Artifact(MacosCli, MacBundle(b.version), |b.mac|, c.sha(b.mac))
  }

  function WinArtifact(c: Codec, b: Build): Artifact {
    Artifact(WindowsWorkerInstaller, WindowsInstaller(b.version), |b.win|, c.sha(b.win))
  }

  function ManifestOf(c: Codec, b: Build): Manifest {
    Manifest(b.version, b.publishedAt, [MacArtifact(c, b), WinArtifact(c, b)])
  }

  function ManifestBytes(c: Codec, b: Build): Bytes {
    c.encode(ManifestOf(c, b))
  }

  function ManifestDigest(c: Codec, b: Build): string {
    c.sha(ManifestBytes(c, b))
  }

  type Tree = map<FileName, Bytes>

  /** The expected size and digest of every file of the version directory. */
  function Expected(c: Codec, b: Build): map<FileName, (nat, string)> {
    map[MacBundle(b.version) := (|b.mac|, c.sha(b.mac)),
        WindowsInstaller(b.version) := (|b.win|, c.sha(b.win)),
        ManifestJson := (|ManifestBytes(c, b)|, ManifestDigest(c, b))]
  }

  /** The files a complete version directory holds. */
  function TreeOf(c: Codec, b: Build): Tree {
    map[MacBundle(b.version) := b.mac, WindowsInstaller(b.version) := b.win, ManifestJson := ManifestBytes(c, b)]
  }

  predicate SameTree(c: Codec, t: Tree, expected: map<FileName, (nat, string)>) {
    t.Keys == expected.Keys && forall f :: f in t ==> |t[f]| == expected[f].0 && c.sha(t[f]) == expected[f].1
  }

  /** Comparing names, sizes and digests is comparing the files themselves. */
  lemma SameTreeIsEqual(c: Codec, t: Tree, b: Build)
    requires Lawful(c)
    ensures SameTree(c, t, Expected(c, b)) <==> t == TreeOf(c, b)
  {
    assert Expected(c, b).Keys == TreeOf(c, b).Keys;
    if SameTree(c, t, Expected(c, b)) {
      forall f | f in t
        ensures t[f] == TreeOf(c, b)[f]
      {
        assert c.sha(t[f]) == c.sha(TreeOf(c, b)[f]);
      }
    }
  }

  // ----- publishers -----

  datatype Pointer = Pointer(version: string, digest: string)

  datatype Stage =
    | Begun
    | CopyingWin(tree: Tree)
    | WritingManifest(tree: Tree)
    | Verifying(tree: Tree)
    | Renaming(tree: Tree)
    | Published
    | MacBootstrapWritten
    | WinBootstrapWritten
    | Stopped

  datatype Publisher = Publisher(build: Build, stage: Stage)

  // ----- clients -----

  datatype Candidate = Candidate(version: string, filename: FileName, size: nat, digest: string)

  datatype Client =
    | HavePointer(pointer: Pointer)
    | HaveCandidate(pointer: Pointer, candidate: Candidate)
    | Accepted(pointer: Pointer, artifact: Bytes)
    | Refused

  const MAX_METADATA := 1024 * 1024
  const MAX_ARTIFACT := 2 * 1024 * 1024 * 1024

  function MacClis(artifacts: seq<Artifact>): seq<Artifact> {
    if artifacts == [] then []
    else
      var last := artifacts[|artifacts| - 1];
      MacClis(artifacts[..|artifacts| - 1]) + if last.role.MacosCli? then [last] else []
  }

  /** _candidate, from the manifest bytes the network returned for the pointer's version. */
  function CandidateFrom(c: Codec, p: Pointer, bytes: Bytes): Option<Candidate> {
    if |bytes| > MAX_METADATA || c.sha(bytes) != p.digest || c.decode(bytes).None? then None
    else
      var m := c.decode(bytes).value;
      var matches := MacClis(m.artifacts);
      if m.version != p.version || |matches| != 1 then None
      else
        var a := matches[0];
        if a.filename != MacBundle(p.version) || !(1 <= a.size <= MAX_ARTIFACT) then None
        else Some(Candidate(p.version, a.filename, a.size, a.digest))
  }

  /** _download, from the artifact bytes the network returned. */
  predicate DownloadAccepts(c: Codec, k: Candidate, bytes: Bytes) {
    |bytes| == k.size && c.sha(bytes) == k.digest
  }

  // ----- the world -----

  datatype World = World(
    trees: map<string, Tree>,
    pointer: Option<Pointer>,
    macBootstrap: Option<Pointer>,
    winBootstrap: Option<Pointer>,
    publishers: map<nat, Publisher>,
    clients: map<nat, Client>,
    builds: map<string, Build>)

  datatype Event =
    | Begin(pid: nat, build: Build)
    | CheckRoot(pid: nat)
    | CopyMac(pid: nat, copied: Bytes)
    | CopyWin(pid: nat, copied: Bytes)
    | WriteManifest(pid: nat)
    | Verify(pid: nat)
    | Rename(pid: nat, existsError: bool)
    | WriteMacBootstrap(pid: nat)
    | WriteWinBootstrap(pid: nat)
    | WritePointer(pid: nat)
    | Kill(pid: nat)
    | ReadPointer(cid: nat)
    | ReadManifest(cid: nat, bytes: Bytes)
    | ReadArtifact(cid: nat, bytes: Bytes)

  function To(w: World, pid: nat, stage: Stage): World
    requires pid in w.publishers
  {
    w.(publishers := w.publishers[pid := w.publishers[pid].(stage := stage)])
  }

  function Next(c: Codec, w: World, e: Event): World {
    match e
    case Begin(pid, b) =>
      if pid in w.publishers || b.mac == [] || b.win == [] then w
      else w.(publishers := w.publishers[pid := Publisher(b, Begun)])
    case Kill(pid) => w.(publishers := w.publishers - {pid})
    case ReadPointer(cid) =>
      if cid in w.clients || w.pointer.None? then w
      else w.(clients := w.clients[cid := HavePointer(w.pointer.value)])
    case ReadManifest(cid, bytes) =>
      if cid !in w.clients || !w.clients[cid].HavePointer? then w
      else
        var k := CandidateFrom(c, w.clients[cid].pointer, bytes);
        w.(clients := w.clients[cid := if k.Some? then HaveCandidate(w.clients[cid].pointer, k.value) else Refused])
    case ReadArtifact(cid, bytes) =>
      if cid !in w.clients || !w.clients[cid].HaveCandidate? then w
      else
        w.(clients := w.clients[cid :=
          if DownloadAccepts(c, w.clients[cid].candidate, bytes)
          then Accepted(w.clients[cid].pointer, bytes) else Refused])
    case _ => if e.pid in w.publishers then Publish(c, w, e) else w
  }

  /** One operation of build_public_release. */
  function Publish(c: Codec, w: World, e: Event): World
    requires !e.ReadPointer? && !e.ReadManifest? && !e.ReadArtifact? && e.pid in w.publishers
  {
    var b := w.publishers[e.pid].build;
    var v := b.version;
    var stage := w.publishers[e.pid].stage;
    match e
    case CheckRoot(pid) =>
      if !stage.Begun? || v !in w.trees then w
      else To(w, pid, if SameTree(c, w.trees[v], Expected(c, b)) then Published else Stopped)
    case CopyMac(pid, copied) =>
      if stage.Begun? && v !in w.trees then To(w, pid, CopyingWin(map[MacBundle(v) := copied])) else w
    case CopyWin(pid, copied) =>
      if stage.CopyingWin? then To(w, pid, WritingManifest(stage.tree[WindowsInstaller(v) := copied])) else w
    case WriteManifest(pid) =>
      if stage.WritingManifest? then To(w, pid, Verifying(stage.tree[ManifestJson := ManifestBytes(c, b)])) else w
    case Verify(pid) =>
      if stage.Verifying?
      then To(w, pid, if SameTree(c, stage.tree, Expected(c, b)) then Renaming(stage.tree) else Stopped) else w
    case Rename(pid, existsError) =>
      if !stage.Renaming? then w
      else if v !in w.trees then
        To(w.(trees := w.trees[v := stage.tree], builds := w.builds[v := b]), pid, Published)
      else if existsError && SameTree(c, w.trees[v], Expected(c, b)) then To(w, pid, Published)
      else To(w, pid, Stopped)
    case WriteMacBootstrap(pid) =>
      if stage.Published?
      then To(w.(macBootstrap := Some(Pointer(v, ManifestDigest(c, b)))), pid, MacBootstrapWritten) else w
    case WriteWinBootstrap(pid) =>
      if stage.MacBootstrapWritten?
      then To(w.(winBootstrap := Some(Pointer(v, ManifestDigest(c, b)))), pid, WinBootstrapWritten) else w
    case WritePointer(pid) =>
      if stage.WinBootstrapWritten?
      then To(w.(pointer := Some(Pointer(v, ManifestDigest(c, b)))), pid, Stopped) else w
    case _ => w
  }

  function Run(c: Codec, w: World, es: seq<Event>): World {
    if es == [] then w else Next(c, Run(c, w, es[..|es| - 1]), es[|es| - 1])
  }

  const EMPTY_ROOT := World(map[], None, None, None, map[], map[], map[])
}
