/**
 What holds at every point of every interleaving of publishers and upgrade clients.
 */
module ReleaseRuns {
  import opened Common
  import opened Releases

  type Builds = map<string, Build>

  /** A pointer records the digest of the manifest of the build published under its version. */
  predicate PointsTo(c: Codec, builds: Builds, p: Pointer) {
    p.version in builds && p.digest == ManifestDigest(c, builds[p.version])
  }

  predicate PointerOk(c: Codec, builds: Builds, p: Option<Pointer>) {
    p.Some? ==> PointsTo(c, builds, p.value)
  }

  /** Every version directory holds exactly the files of the build that renamed it into place. */
  ghost predicate TreesComplete(c: Codec, trees: map<string, Tree>, builds: Builds) {
    && trees.Keys == builds.Keys
    && forall v :: v in builds ==> builds[v].version == v && builds[v].mac != [] && trees[v] == TreeOf(c, builds[v])
  }

  predicate Confirmed(s: Stage) {
    s.Published? || s.MacBootstrapWritten? || s.WinBootstrapWritten?
  }

  predicate PublisherOk(c: Codec, builds: Builds, p: Publisher) {
    && p.build.mac != []
    && (p.stage.Renaming? ==> p.stage.tree == TreeOf(c, p.build))
    && (Confirmed(p.stage) ==> PointsTo(c, builds, Pointer(p.build.version, ManifestDigest(c, p.build))))
  }

  predicate PublishersOk(c: Codec, builds: Builds, publishers: map<nat, Publisher>) {
    forall pid :: pid in publishers ==> PublisherOk(c, builds, publishers[pid])
  }

  predicate ClientOk(c: Codec, builds: Builds, k: Client) {
    match k
    case HavePointer(p) => PointsTo(c, builds, p)
    case HaveCandidate(p, k) =>
      && PointsTo(c, builds, p)
      && k.filename == MacBundle(p.version) && k.digest == c.sha(builds[p.version].mac)
    case Accepted(p, bytes) => PointsTo(c, builds, p) && bytes == builds[p.version].mac
    case Refused => true
  }

  predicate ClientsOk(c: Codec, builds: Builds, clients: map<nat, Client>) {
    forall cid :: cid in clients ==> ClientOk(c, builds, clients[cid])
  }

  ghost predicate Inv(c: Codec, w: World) {
    && TreesComplete(c, w.trees, w.builds)
    && PublishersOk(c, w.builds, w.publishers)
    && PointerOk(c, w.builds, w.pointer)
    && PointerOk(c, w.builds, w.macBootstrap)
    && PointerOk(c, w.builds, w.winBootstrap)
    && ClientsOk(c, w.builds, w.clients)
  }

  // ----- one step -----

  /** The two artifacts of a manifest have one macOS CLI among them. */
  lemma OneMacCli(c: Codec, b: Build)
    ensures MacClis(ManifestOf(c, b).artifacts) == [MacArtifact(c, b)]
  {
    var a := ManifestOf(c, b).artifacts;
    assert a[..1] == [MacArtifact(c, b)] && a[..1][..0] == [];
    assert MacClis(a[..1]) == [MacArtifact(c, b)];
  }

  /** Whatever bytes the network returns, a candidate carries the metadata of the pointed build. */
  lemma CandidateIsGenuine(c: Codec, b: Build, bytes: Bytes)
    requires Lawful(c)
    requires CandidateFrom(c, Pointer(b.version, ManifestDigest(c, b)), bytes).Some?
    ensures CandidateFrom(c, Pointer(b.version, ManifestDigest(c, b)), bytes).value ==
      Candidate(b.version, MacBundle(b.version), |b.mac|, c.sha(b.mac))
  {
    assert bytes == ManifestBytes(c, b);
    OneMacCli(c, b);
  }

  lemma ClientStepOk(c: Codec, w: World, cid: nat, k: Client)
    requires Inv(c, w) && ClientOk(c, w.builds, k)
    ensures Inv(c, w.(clients := w.clients[cid := k]))
  {
  }

  lemma ReadManifestOk(c: Codec, w: World, cid: nat, bytes: Bytes)
    requires Lawful(c) && Inv(c, w)
    ensures Inv(c, Next(c, w, ReadManifest(cid, bytes)))
  {
    if cid in w.clients && w.clients[cid].HavePointer? {
      var p := w.clients[cid].pointer;
      assert ClientOk(c, w.builds, w.clients[cid]);
      var k := CandidateFrom(c, p, bytes);
      if k.Some? {
        CandidateIsGenuine(c, w.builds[p.version], bytes);
      }
      ClientStepOk(c, w, cid, if k.Some? then HaveCandidate(p, k.value) else Refused);
    }
  }

  lemma ReadArtifactOk(c: Codec, w: World, cid: nat, bytes: Bytes)
    requires Lawful(c) && Inv(c, w)
    ensures Inv(c, Next(c, w, ReadArtifact(cid, bytes)))
  {
    if cid in w.clients && w.clients[cid].HaveCandidate? {
      var k := w.clients[cid];
      assert ClientOk(c, w.builds, k);
      ClientStepOk(c, w, cid, if DownloadAccepts(c, k.candidate, bytes) then Accepted(k.pointer, bytes) else Refused);
    }
  }

  lemma StageOk(c: Codec, w: World, pid: nat, s: Stage)
    requires Inv(c, w) && pid in w.publishers && PublisherOk(c, w.builds, w.publishers[pid].(stage := s))
    ensures Inv(c, To(w, pid, s))
  {
  }

  /** A new version leaves every pointer, publisher and client where it was. */
  lemma NewBuildOk(c: Codec, w: World, b: Build)
    requires Inv(c, w) && b.version !in w.builds
    ensures PublishersOk(c, w.builds[b.version := b], w.publishers)
    ensures ClientsOk(c, w.builds[b.version := b], w.clients)
  {
    forall pid | pid in w.publishers
      ensures PublisherOk(c, w.builds[b.version := b], w.publishers[pid])
    {
      assert PublisherOk(c, w.builds, w.publishers[pid]);
    }
    forall cid | cid in w.clients
      ensures ClientOk(c, w.builds[b.version := b], w.clients[cid])
    {
      assert ClientOk(c, w.builds, w.clients[cid]);
    }
  }

  /** The rename of a verified staging directory. */
  lemma AppearOk(c: Codec, w: World, b: Build)
    requires Inv(c, w) && b.version !in w.trees && b.mac != []
    ensures Inv(c, w.(trees := w.trees[b.version := TreeOf(c, b)], builds := w.builds[b.version := b]))
  {
    NewBuildOk(c, w, b);
  }

  /** A publisher that found its own files in the version directory points at that directory. */
  lemma FoundOk(c: Codec, w: World, pid: nat)
    requires Lawful(c) && Inv(c, w) && pid in w.publishers && w.publishers[pid].build.version in w.trees
    requires SameTree(c, w.trees[w.publishers[pid].build.version], Expected(c, w.publishers[pid].build))
    ensures Inv(c, To(w, pid, Published))
  {
    var b := w.publishers[pid].build;
    SameTreeIsEqual(c, w.trees[b.version], b);
    assert w.trees[b.version][ManifestJson] == ManifestBytes(c, b);
    assert PublisherOk(c, w.builds, w.publishers[pid]);
    StageOk(c, w, pid, Published);
  }

  lemma RenameOk(c: Codec, w: World, pid: nat, existsError: bool)
    requires Lawful(c) && Inv(c, w) && pid in w.publishers
    ensures Inv(c, Publish(c, w, Rename(pid, existsError)))
  {
    var p := w.publishers[pid];
    var v := p.build.version;
    assert PublisherOk(c, w.builds, p);
    if !p.stage.Renaming? {
    } else if v !in w.trees {
      AppearOk(c, w, p.build);
      var w' := w.(trees := w.trees[v := p.stage.tree], builds := w.builds[v := p.build]);
      StageOk(c, w', pid, Published);
    } else if existsError && SameTree(c, w.trees[v], Expected(c, p.build)) {
      FoundOk(c, w, pid);
    } else {
      StageOk(c, w, pid, Stopped);
    }
  }

  lemma VerifyOk(c: Codec, w: World, pid: nat)
    requires Lawful(c) && Inv(c, w) && pid in w.publishers
    ensures Inv(c, Publish(c, w, Verify(pid)))
  {
    var p := w.publishers[pid];
    assert PublisherOk(c, w.builds, p);
    if p.stage.Verifying? {
      SameTreeIsEqual(c, p.stage.tree, p.build);
      StageOk(c, w, pid, if SameTree(c, p.stage.tree, Expected(c, p.build)) then Renaming(p.stage.tree) else Stopped);
    }
  }

  lemma CheckRootOk(c: Codec, w: World, pid: nat)
    requires Lawful(c) && Inv(c, w) && pid in w.publishers
    ensures Inv(c, Publish(c, w, CheckRoot(pid)))
  {
    var p := w.publishers[pid];
    assert PublisherOk(c, w.builds, p);
    if p.stage.Begun? && p.build.version in w.trees {
      if SameTree(c, w.trees[p.build.version], Expected(c, p.build)) {
        FoundOk(c, w, pid);
      } else {
        StageOk(c, w, pid, Stopped);
      }
    }
  }

  /** Copying into a staging directory and writing its manifest promise nothing yet. */
  lemma StagingOk(c: Codec, w: World, e: Event)
    requires Inv(c, w) && (e.CopyMac? || e.CopyWin? || e.WriteManifest?) && e.pid in w.publishers
    ensures Inv(c, Publish(c, w, e))
  {
    var p := w.publishers[e.pid];
    assert PublisherOk(c, w.builds, p);
    var s := Publish(c, w, e).publishers[e.pid].stage;
    assert s == p.stage || !(s.Renaming? || Confirmed(s));
    StageOk(c, w, e.pid, s);
  }

  /** Pointers to a confirmed tree may replace the ones there were. */
  lemma PointOk(c: Codec, w: World, w': World, pid: nat, s: Stage)
    requires Inv(c, w) && pid in w.publishers && PublisherOk(c, w.builds, w.publishers[pid].(stage := s))
    requires PointerOk(c, w.builds, w'.pointer)
    requires PointerOk(c, w.builds, w'.macBootstrap)
    requires PointerOk(c, w.builds, w'.winBootstrap)
    requires w' == w.(pointer := w'.pointer, macBootstrap := w'.macBootstrap, winBootstrap := w'.winBootstrap)
    ensures Inv(c, To(w', pid, s))
  {
    StageOk(c, w', pid, s);
  }

  /** Bootstraps and pointer are written only by a publisher whose tree is in place. */
  lemma WritesOk(c: Codec, w: World, e: Event)
    requires Inv(c, w) && (e.WriteMacBootstrap? || e.WriteWinBootstrap? || e.WritePointer?) && e.pid in w.publishers
    ensures Inv(c, Publish(c, w, e))
  {
    var b := w.publishers[e.pid].build;
    var stage := w.publishers[e.pid].stage;
    var p := Some(Pointer(b.version, ManifestDigest(c, b)));
    assert PublisherOk(c, w.builds, w.publishers[e.pid]);
    if e.WriteMacBootstrap? {
      if stage.Published? {
        PointOk(c, w, w.(macBootstrap := p), e.pid, MacBootstrapWritten);
      }
    } else if e.WriteWinBootstrap? {
      if stage.MacBootstrapWritten? {
        PointOk(c, w, w.(winBootstrap := p), e.pid, WinBootstrapWritten);
      }
    } else if stage.WinBootstrapWritten? {
      PointOk(c, w, w.(pointer := p), e.pid, Stopped);
    }
  }

  lemma PublishKeepsInv(c: Codec, w: World, e: Event)
    requires Lawful(c) && Inv(c, w)
    requires !e.Begin? && !e.Kill? && !e.ReadPointer? && !e.ReadManifest? && !e.ReadArtifact? && e.pid in w.publishers
    ensures Inv(c, Publish(c, w, e))
  {
    if e.CheckRoot? {
      CheckRootOk(c, w, e.pid);
    } else if e.Verify? {
      VerifyOk(c, w, e.pid);
    } else if e.Rename? {
      RenameOk(c, w, e.pid, e.existsError);
    } else if e.CopyMac? || e.CopyWin? || e.WriteManifest? {
      StagingOk(c, w, e);
    } else {
      WritesOk(c, w, e);
    }
  }

  lemma MembersOk(c: Codec, w: World, e: Event)
    requires Inv(c, w) && (e.Begin? || e.Kill?)
    ensures Inv(c, Next(c, w, e))
  {
  }

  lemma NextKeepsInv(c: Codec, w: World, e: Event)
    requires Lawful(c) && Inv(c, w)
    ensures Inv(c, Next(c, w, e))
  {
    if e.ReadManifest? {
      ReadManifestOk(c, w, e.cid, e.bytes);
    } else if e.ReadArtifact? {
      ReadArtifactOk(c, w, e.cid, e.bytes);
    } else if e.ReadPointer? {
      if w.pointer.Some? {
        ClientStepOk(c, w, e.cid, HavePointer(w.pointer.value));
      }
    } else if e.Begin? || e.Kill? {
      MembersOk(c, w, e);
    } else if e.pid in w.publishers {
      PublishKeepsInv(c, w, e);
    }
  }

  lemma {:induction false} RunKeepsInv(c: Codec, w: World, es: seq<Event>)
    requires Lawful(c) && Inv(c, w)
    ensures Inv(c, Run(c, w, es))
  {
    if es != [] {
      RunKeepsInv(c, w, es[..|es| - 1]);
      NextKeepsInv(c, Run(c, w, es[..|es| - 1]), es[|es| - 1]);
    }
  }

  // ----- whole runs -----

  lemma StepKeepsTree(c: Codec, w: World, e: Event, v: string)
    requires v in w.trees
    ensures v in Next(c, w, e).trees && Next(c, w, e).trees[v] == w.trees[v]
  {
  }

  /** A published version tree never changes and never disappears. */
  lemma {:induction false} TreesAreImmutable(c: Codec, w: World, es: seq<Event>, v: string)
    requires v in w.trees
    ensures v in Run(c, w, es).trees && Run(c, w, es).trees[v] == w.trees[v]
  {
    if es != [] {
      TreesAreImmutable(c, w, es[..|es| - 1], v);
      StepKeepsTree(c, Run(c, w, es[..|es| - 1]), es[|es| - 1], v);
    }
  }

  /** Nothing is published, read or pointed at yet. */
  lemma EmptyRootOk(c: Codec)
    ensures Inv(c, EMPTY_ROOT)
  {
  }

  /**
   At every point of every run the pointer and both bootstraps name a version directory that is complete:
   it holds the manifest with the recorded digest and every artifact with the manifest's size and digest,
   and nothing else.
   */
  lemma PointersNameCompleteTrees(c: Codec, es: seq<Event>, p: Pointer)
    requires Lawful(c)
    requires var w := Run(c, EMPTY_ROOT, es); 
      (w.pointer == Some(p) || w.macBootstrap == Some(p) || w.winBootstrap == Some(p))
    ensures Complete(c, Run(c, EMPTY_ROOT, es), p)
  {
    var w := Run(c, EMPTY_ROOT, es);
    EmptyRootOk(c);
    RunKeepsInv(c, EMPTY_ROOT, es);
    PointedTreeIsComplete(c, w, p);
  }

  /** The version directory a pointer names is self-consistent, as a reader sees it. */
  ghost predicate Complete(c: Codec, w: World, p: Pointer) {
    && p.version in w.trees && ManifestJson in w.trees[p.version]
    && var t := w.trees[p.version];
    && c.sha(t[ManifestJson]) == p.digest
    && c.decode(t[ManifestJson]).Some?
    && var m := c.decode(t[ManifestJson]).value;
    && m.version == p.version
    && (forall a :: a in m.artifacts ==> Holds(c, t, a))
    && t.Keys == {ManifestJson} + set a | a in m.artifacts :: a.filename
  }

  predicate Holds(c: Codec, t: Tree, a: Artifact) {
    a.filename in t && |t[a.filename]| == a.size && c.sha(t[a.filename]) == a.digest
  }

  lemma NamesOf(x: Artifact, y: Artifact)
    ensures (set a | a in [x, y] :: a.filename) == {x.filename, y.filename}
  {
    assert x in [x, y] && y in [x, y];
  }

  lemma PointedTreeIsComplete(c: Codec, w: World, p: Pointer)
    requires Lawful(c) && Inv(c, w) && PointsTo(c, w.builds, p)
    ensures Complete(c, w, p)
  {
    var b := w.builds[p.version];
    var t := TreeOf(c, b);
    assert w.trees[p.version] == t;
    assert c.decode(t[ManifestJson]) == Some(ManifestOf(c, b));
    var m := ManifestOf(c, b);
    assert Holds(c, t, MacArtifact(c, b)) && Holds(c, t, WinArtifact(c, b));
    NamesOf(MacArtifact(c, b), WinArtifact(c, b));
  }

  /**
   Whatever the network answered for the manifest and the artifact, a client that accepted one holds
   exactly the bytes of the macOS bundle in the version directory it was pointed at.
   */
  lemma AcceptedIsPublished(c: Codec, es: seq<Event>, cid: nat)
    requires Lawful(c)
    requires cid in Run(c, EMPTY_ROOT, es).clients && Run(c, EMPTY_ROOT, es).clients[cid].Accepted?
    ensures var w := Run(c, EMPTY_ROOT, es);
      var k := w.clients[cid];
      && k.pointer.version in w.trees
      && MacBundle(k.pointer.version) in w.trees[k.pointer.version]
      && k.artifact == w.trees[k.pointer.version][MacBundle(k.pointer.version)]
  {
    EmptyRootOk(c);
    RunKeepsInv(c, EMPTY_ROOT, es);
    var w := Run(c, EMPTY_ROOT, es);
    assert ClientOk(c, w.builds, w.clients[cid]);
    assert w.trees[w.clients[cid].pointer.version] == TreeOf(c, w.builds[w.clients[cid].pointer.version]);
  }

  /** The size limits of the client, of a version directory that a pointer may name. */
  predicate WithinLimits(t: Tree, version: string) {
    && ManifestJson in t && |t[ManifestJson]| <= MAX_METADATA
    && MacBundle(version) in t && |t[MacBundle(version)]| <= MAX_ARTIFACT
  }

  /** From the files a server really holds, a client pointed at them gets the bundle, unless they are too large. */
  lemma HonestFetchVerifies(c: Codec, b: Build)
    requires Lawful(c) && b.mac != []
    ensures var t := TreeOf(c, b);
      var k := CandidateFrom(c, Pointer(b.version, ManifestDigest(c, b)), t[ManifestJson]);
      && (k.Some? <==> WithinLimits(t, b.version))
      && (k.Some? ==> DownloadAccepts(c, k.value, t[MacBundle(b.version)]))
  {
    OneMacCli(c, b);
    var p := Pointer(b.version, ManifestDigest(c, b));
    var t := TreeOf(c, b);
    assert c.decode(t[ManifestJson]) == Some(ManifestOf(c, b));
    if CandidateFrom(c, p, t[ManifestJson]).Some? {
      CandidateIsGenuine(c, b, t[ManifestJson]);
    }
  }

  /**
   A client that has read a pointer can still verify the release it names after any further run, whoever
   publishes what meanwhile: the manifest and bundle the server then holds pass every check, exactly when
   they were within the client's size limits when the pointer was read.
   */
  lemma PointedReleaseStaysVerifiable(c: Codec, es: seq<Event>, more: seq<Event>, p: Pointer)
    requires Lawful(c) && Run(c, EMPTY_ROOT, es).pointer == Some(p)
    ensures var w := Run(c, EMPTY_ROOT, es);
      var t := Run(c, w, more).trees;
      && p.version in w.trees && p.version in t
      && ManifestJson in t[p.version] && MacBundle(p.version) in t[p.version]
      && var k := CandidateFrom(c, p, t[p.version][ManifestJson]);
      && (k.Some? <==> WithinLimits(w.trees[p.version], p.version))
      && (k.Some? ==> DownloadAccepts(c, k.value, t[p.version][MacBundle(p.version)]))
  {
    EmptyRootOk(c);
    RunKeepsInv(c, EMPTY_ROOT, es);
    var w := Run(c, EMPTY_ROOT, es);
    TreesAreImmutable(c, w, more, p.version);
    HonestFetchVerifies(c, w.builds[p.version]);
  }

  // ----- a release that every client refuses -----

  lemma RunSnoc(c: Codec, w: World, es: seq<Event>, e: Event)
    ensures Run(c, w, es + [e]) == Next(c, Run(c, w, es), e)
  {
    assert (es + [e])[..|es|] == es;
  }

  function StagingRun(b: Build): seq<Event> {
    [] + [Begin(1, b)] + [CopyMac(1, b.mac)] + [CopyWin(1, b.win)] + [WriteManifest(1)] + [Verify(1)]
  }

  /** One publisher alone, at this stage, over a root with nothing else. */
  function Publishing(b: Build, stage: Stage): World {
    EMPTY_ROOT.(publishers := map[1 := Publisher(b, stage)])
  }

  lemma StagedWorld(c: Codec, b: Build)
    requires Lawful(c) && b.mac != [] && b.win != []
    ensures Run(c, EMPTY_ROOT, StagingRun(b)) == Publishing(b, Renaming(TreeOf(c, b)))
  {
    var mac, win := MacBundle(b.version), WindowsInstaller(b.version);
    RunSnoc(c, EMPTY_ROOT, [], Begin(1, b));
    RunSnoc(c, EMPTY_ROOT, [] + [Begin(1, b)], CopyMac(1, b.mac));
    RunSnoc(c, EMPTY_ROOT, [] + [Begin(1, b)] + [CopyMac(1, b.mac)], CopyWin(1, b.win));
    RunSnoc(c, EMPTY_ROOT, [] + [Begin(1, b)] + [CopyMac(1, b.mac)] + [CopyWin(1, b.win)], WriteManifest(1));
    StagingSteps(c, b);
    var es := [] + [Begin(1, b)] + [CopyMac(1, b.mac)] + [CopyWin(1, b.win)] + [WriteManifest(1)];
    RunSnoc(c, EMPTY_ROOT, es, Verify(1));
    SameTreeIsEqual(c, TreeOf(c, b), b);
  }

  lemma StagingSteps(c: Codec, b: Build)
    requires b.mac != [] && b.win != []
    ensures
      var copied := map[MacBundle(b.version) := b.mac];
      var both := copied[WindowsInstaller(b.version) := b.win];
      && Next(c, EMPTY_ROOT, Begin(1, b)) == Publishing(b, Begun)
      && Next(c, Publishing(b, Begun), CopyMac(1, b.mac)) == Publishing(b, CopyingWin(copied))
      && Next(c, Publishing(b, CopyingWin(copied)), CopyWin(1, b.win)) == Publishing(b, WritingManifest(both))
      && Next(c, Publishing(b, WritingManifest(both)), WriteManifest(1)) == Publishing(b, Verifying(TreeOf(c, b)))
  {
  }

  function PublishingRun(b: Build): seq<Event> {
    StagingRun(b) + [Rename(1, false)] + [WriteMacBootstrap(1)] + [WriteWinBootstrap(1)] + [WritePointer(1)]
  }

  lemma PublishedWorld(c: Codec, b: Build)
    requires Lawful(c) && b.mac != [] && b.win != []
    ensures
      var w := Run(c, EMPTY_ROOT, PublishingRun(b));
      && w.pointer == Some(Pointer(b.version, ManifestDigest(c, b))) && w.clients == map[]
      && w.trees == map[b.version := TreeOf(c, b)]
  {
    StagedWorld(c, b);
    RunSnoc(c, EMPTY_ROOT, StagingRun(b), Rename(1, false));
    var es := StagingRun(b) + [Rename(1, false)];
    RunSnoc(c, EMPTY_ROOT, es, WriteMacBootstrap(1));
    RunSnoc(c, EMPTY_ROOT, es + [WriteMacBootstrap(1)], WriteWinBootstrap(1));
    RunSnoc(c, EMPTY_ROOT, es + [WriteMacBootstrap(1)] + [WriteWinBootstrap(1)], WritePointer(1));
  }

  /**
   A bundle beyond the client's limit is published, and the client that reads the pointer refuses its manifest.
   The publisher limits what a bundle expands to, by the same number of bytes, and not the bundle: one that is
   stored rather than compressed can pass the limit by the archive's own headers.
   */
  lemma OversizedReleaseIsRefused(c: Codec, b: Build)
    requires Lawful(c) && b.win != [] && |b.mac| > MAX_ARTIFACT
    ensures Run(c, EMPTY_ROOT, PublishingRun(b)).pointer == Some(Pointer(b.version, ManifestDigest(c, b)))
    ensures
      var w := Run(c, EMPTY_ROOT, PublishingRun(b) + [ReadPointer(7)] + [ReadManifest(7, ManifestBytes(c, b))]);
      7 in w.clients && w.clients[7].Refused?
  {
    PublishedWorld(c, b);
    RunSnoc(c, EMPTY_ROOT, PublishingRun(b), ReadPointer(7));
    RunSnoc(c, EMPTY_ROOT, PublishingRun(b) + [ReadPointer(7)], ReadManifest(7, ManifestBytes(c, b)));
    HonestFetchVerifies(c, b);
  }
}
