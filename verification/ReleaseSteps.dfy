/**
 What each operation of a publisher and of an upgrade client does, and what a whole publication and a whole
 upgrade come to.
 */
module ReleaseSteps {
  import opened Common
  import opened Releases
  import opened ReleaseRuns

  // ----- the files of a build -----

  /** The manifest of a build: its version and time, and the two bundles with their sizes and digests. */
  function BuildManifest(c: Codec, b: Build): Manifest {
    Manifest(b.version, b.publishedAt, [
      Artifact(MacosCli, MacBundle(b.version), |b.mac|, c.sha(b.mac)),
      Artifact(WindowsWorkerInstaller, WindowsInstaller(b.version), |b.win|, c.sha(b.win))])
  }

  /** A version directory with the two bundles, the manifest, and nothing else. */
  ghost predicate IsReleaseOf(c: Codec, t: Tree, b: Build) {
    && t.Keys == {MacBundle(b.version), WindowsInstaller(b.version), ManifestJson}
    && t[MacBundle(b.version)] == b.mac && t[WindowsInstaller(b.version)] == b.win
    && t[ManifestJson] == c.encode(BuildManifest(c, b))
  }

  /** What the channel and the bootstraps say of a build. */
  function Names(c: Codec, b: Build): Pointer {
    Pointer(b.version, c.sha(c.encode(BuildManifest(c, b))))
  }

  lemma ReleaseIs(c: Codec, t: Tree, b: Build)
    requires Lawful(c)
    ensures IsReleaseOf(c, t, b) <==> SameTree(c, t, Expected(c, b))
    ensures t == TreeOf(c, b) <==> IsReleaseOf(c, t, b)
    ensures Names(c, b) == Pointer(b.version, ManifestDigest(c, b))
  {
    SameTreeIsEqual(c, t, b);
    assert TreeOf(c, b).Keys == {MacBundle(b.version), WindowsInstaller(b.version), ManifestJson};
    assert ManifestBytes(c, b) == c.encode(BuildManifest(c, b));
  }

  // ----- how a publisher moves on -----

  ghost predicate Working(w: World, pid: nat, stage: Stage) {
    pid in w.publishers && w.publishers[pid].stage == stage
  }

  /** The version directory is there with exactly the files of the publisher's build. */
  ghost predicate Present(c: Codec, w: World, b: Build) {
    b.version in w.trees && IsReleaseOf(c, w.trees[b.version], b)
  }

  /** Why publisher pid, whose build is b and whose stage was another, comes to this stage. */
  ghost predicate MovesBecause(c: Codec, w: World, e: Event, pid: nat, stage: Stage)
    requires pid in w.publishers
  {
    var b, now := w.publishers[pid].build, w.publishers[pid].stage;
    match stage
    case Begun => false
    case CopyingWin(t) =>
      e.CopyMac? && e.pid == pid && now.Begun? && b.version !in w.trees && t == map[MacBundle(b.version) := e.copied]
    case WritingManifest(t) =>
      e.CopyWin? && e.pid == pid && now.CopyingWin? && t == now.tree[WindowsInstaller(b.version) := e.copied]
    case Verifying(t) =>
      e.WriteManifest? && e.pid == pid && now.WritingManifest?
      && t == now.tree[ManifestJson := c.encode(BuildManifest(c, b))]
    case Renaming(t) => e.Verify? && e.pid == pid && now == Verifying(t) && IsReleaseOf(c, t, b)
    case Published =>
      || (e.CheckRoot? && e.pid == pid && now.Begun? && Present(c, w, b))
      || (e.Rename? && e.pid == pid && now.Renaming?
           && (b.version !in w.trees || (e.existsError && Present(c, w, b))))
    case MacBootstrapWritten => e.WriteMacBootstrap? && e.pid == pid && now.Published?
    case WinBootstrapWritten => e.WriteWinBootstrap? && e.pid == pid && now.MacBootstrapWritten?
    case Stopped =>
      || (e.CheckRoot? && e.pid == pid && now.Begun? && b.version in w.trees && !Present(c, w, b))
      || (e.Verify? && e.pid == pid && now.Verifying? && !IsReleaseOf(c, now.tree, b))
      || (e.Rename? && e.pid == pid && now.Renaming? && b.version in w.trees && !(e.existsError && Present(c, w, b)))
      || (e.WritePointer? && e.pid == pid && now.WinBootstrapWritten?)
  }

  /** Comparing the directories is comparing the releases. */
  ghost predicate Compared(c: Codec, w: World, pid: nat)
    requires pid in w.publishers
  {
    var b, now := w.publishers[pid].build, w.publishers[pid].stage;
    && (b.version in w.trees ==> (Present(c, w, b) <==> SameTree(c, w.trees[b.version], Expected(c, b))))
    && (now.Verifying? ==> (IsReleaseOf(c, now.tree, b) <==> SameTree(c, now.tree, Expected(c, b))))
  }

  lemma ComparedIs(c: Codec, w: World, pid: nat)
    requires Lawful(c) && pid in w.publishers
    ensures Compared(c, w, pid)
  {
    var b, now := w.publishers[pid].build, w.publishers[pid].stage;
    if b.version in w.trees {
      ReleaseIs(c, w.trees[b.version], b);
    }
    if now.Verifying? {
      ReleaseIs(c, now.tree, b);
    }
  }

  /** A publisher comes to a stage exactly for the reason listed for it, keeps its build, and goes when killed. */
  lemma MovesExactlyWhen(c: Codec, w: World, e: Event, pid: nat, stage: Stage)
    requires Lawful(c) && pid in w.publishers
    ensures pid in Next(c, w, e).publishers <==> e != Kill(pid)
    ensures pid in Next(c, w, e).publishers ==> Next(c, w, e).publishers[pid].build == w.publishers[pid].build
    ensures pid in Next(c, w, e).publishers && w.publishers[pid].stage != stage ==>
      (Next(c, w, e).publishers[pid].stage == stage <==> MovesBecause(c, w, e, pid, stage))
  {
    ComparedIs(c, w, pid);
    if e.Begin? || e.Kill? || e.ReadPointer? || e.ReadManifest? || e.ReadArtifact? || e.pid != pid {
      OthersStay(c, w, e, pid);
    } else {
      OwnMove(c, w, e, stage);
    }
  }

  lemma OthersStay(c: Codec, w: World, e: Event, pid: nat)
    requires pid in w.publishers
    requires e.Begin? || e.Kill? || e.ReadPointer? || e.ReadManifest? || e.ReadArtifact? || e.pid != pid
    ensures pid in Next(c, w, e).publishers <==> e != Kill(pid)
    ensures pid in Next(c, w, e).publishers ==> Next(c, w, e).publishers[pid] == w.publishers[pid]
  {
  }

  /** The publisher whose operation this is moves exactly for its reason. */
  ghost predicate Moved(c: Codec, w: World, e: Event, stage: Stage)
    requires !e.ReadPointer? && !e.ReadManifest? && !e.ReadArtifact? && e.pid in w.publishers
  {
    var w' := Next(c, w, e);
    && e.pid in w'.publishers && w'.publishers[e.pid].build == w.publishers[e.pid].build
    && (w.publishers[e.pid].stage != stage ==>
         (w'.publishers[e.pid].stage == stage <==> MovesBecause(c, w, e, e.pid, stage)))
  }

  lemma CopyMoves(c: Codec, w: World, e: Event, stage: Stage)
    requires (e.CopyMac? || e.CopyWin?) && e.pid in w.publishers && Compared(c, w, e.pid)
    ensures Moved(c, w, e, stage)
  {
  }

  lemma ManifestMoves(c: Codec, w: World, e: Event, stage: Stage)
    requires e.WriteManifest? && e.pid in w.publishers && Compared(c, w, e.pid)
    ensures Moved(c, w, e, stage)
  {
    var b := w.publishers[e.pid].build;
    assert ManifestBytes(c, b) == c.encode(BuildManifest(c, b));
  }

  lemma CheckMoves(c: Codec, w: World, e: Event, stage: Stage)
    requires (e.CheckRoot? || e.Verify?) && e.pid in w.publishers && Compared(c, w, e.pid)
    ensures Moved(c, w, e, stage)
  {
  }

  lemma RenameMoves(c: Codec, w: World, e: Event, stage: Stage)
    requires e.Rename? && e.pid in w.publishers && Compared(c, w, e.pid)
    ensures Moved(c, w, e, stage)
  {
  }

  lemma BootstrapMoves(c: Codec, w: World, e: Event, stage: Stage)
    requires (e.WriteMacBootstrap? || e.WriteWinBootstrap?) && e.pid in w.publishers && Compared(c, w, e.pid)
    ensures Moved(c, w, e, stage)
  {
  }

  lemma PointerMoves(c: Codec, w: World, e: Event, stage: Stage)
    requires e.WritePointer? && e.pid in w.publishers && Compared(c, w, e.pid)
    ensures Moved(c, w, e, stage)
  {
  }

  lemma OwnMove(c: Codec, w: World, e: Event, stage: Stage)
    requires !e.Begin? && !e.Kill? && !e.ReadPointer? && !e.ReadManifest? && !e.ReadArtifact? && e.pid in w.publishers
    requires Compared(c, w, e.pid)
    ensures Moved(c, w, e, stage)
  {
    if e.CopyMac? || e.CopyWin? {
      CopyMoves(c, w, e, stage);
    } else if e.WriteManifest? {
      ManifestMoves(c, w, e, stage);
    } else if e.CheckRoot? || e.Verify? {
      CheckMoves(c, w, e, stage);
    } else if e.Rename? {
      RenameMoves(c, w, e, stage);
    } else if e.WritePointer? {
      PointerMoves(c, w, e, stage);
    } else {
      BootstrapMoves(c, w, e, stage);
    }
  }

  // ----- what a publisher writes -----

  /** A version directory appears exactly when a publisher of that version renames its staging directory first. */
  lemma TreeAppearsExactlyWhen(c: Codec, w: World, e: Event, v: string)
    requires v !in w.trees
    ensures
      var renames := e.Rename? && e.pid in w.publishers && w.publishers[e.pid].stage.Renaming?
        && w.publishers[e.pid].build.version == v;
      && (v in Next(c, w, e).trees <==> renames)
      && (renames ==> Next(c, w, e).trees[v] == w.publishers[e.pid].stage.tree)
  {
  }

  predicate IsWrite(e: Event) {
    e.WriteMacBootstrap? || e.WriteWinBootstrap? || e.WritePointer?
  }

  lemma OthersWriteNoNames(c: Codec, w: World, e: Event)
    requires !IsWrite(e)
    ensures
      var w' := Next(c, w, e);
      w'.macBootstrap == w.macBootstrap && w'.winBootstrap == w.winBootstrap && w'.pointer == w.pointer
  {
  }

  /** The bootstraps and the channel change only by their own writes, and then name the publisher's build. */
  lemma NamesWrittenExactlyWhen(c: Codec, w: World, e: Event)
    ensures
      var w' := Next(c, w, e);
      && w'.macBootstrap == (
           if e.WriteMacBootstrap? && Working(w, e.pid, Published)
           then Some(Names(c, w.publishers[e.pid].build)) else w.macBootstrap)
      && w'.winBootstrap == (
           if e.WriteWinBootstrap? && Working(w, e.pid, MacBootstrapWritten)
           then Some(Names(c, w.publishers[e.pid].build)) else w.winBootstrap)
      && w'.pointer == (
           if e.WritePointer? && Working(w, e.pid, WinBootstrapWritten)
           then Some(Names(c, w.publishers[e.pid].build)) else w.pointer)
  {
    if !IsWrite(e) {
      OthersWriteNoNames(c, w, e);
    } else if e.pid in w.publishers {
      NamesIs(c, w.publishers[e.pid].build);
    }
  }

  lemma NamesIs(c: Codec, b: Build)
    ensures Names(c, b) == Pointer(b.version, ManifestDigest(c, b))
  {
    assert ManifestBytes(c, b) == c.encode(BuildManifest(c, b));
  }

  /** A build is taken up exactly when its bundles are not empty and the process is not at work. */
  lemma BeginsExactlyWhen(c: Codec, w: World, pid: nat, b: Build)
    requires pid !in w.publishers
    ensures
      var w' := Next(c, w, Begin(pid, b));
      && (pid in w'.publishers <==> b.mac != [] && b.win != [])
      && (pid in w'.publishers ==> w'.publishers[pid] == Publisher(b, Begun))
  {
  }

  // ----- a whole publication -----

  lemma AlongStages(c: Codec, w: World, pid: nat, e: Event, stage: Stage)
    requires Lawful(c) && pid in w.publishers && w.publishers[pid].stage != stage
    requires MovesBecause(c, w, e, pid, stage) && e != Kill(pid)
    ensures
      var w' := Next(c, w, e);
      pid in w'.publishers && w'.publishers[pid] == Publisher(w.publishers[pid].build, stage)
  {
    MovesExactlyWhen(c, w, e, pid, stage);
  }

  /** Nothing of the root is written by these. */
  predicate Staging(e: Event) {
    e.Begin? || e.CheckRoot? || e.CopyMac? || e.CopyWin? || e.WriteManifest? || e.Verify?
  }

  lemma StagingWritesNothing(c: Codec, w: World, e: Event)
    requires Staging(e)
    ensures
      var w' := Next(c, w, e);
      && w'.trees == w.trees && w'.pointer == w.pointer
      && w'.macBootstrap == w.macBootstrap && w'.winBootstrap == w.winBootstrap
  {
  }

  /** The last three writes of a publisher that has its version directory in place. */
  function NameIt(w: World, c: Codec, pid: nat): World {
    Next(c, Next(c, Next(c, w, WriteMacBootstrap(pid)), WriteWinBootstrap(pid)), WritePointer(pid))
  }

  lemma NamedAtLast(c: Codec, w: World, pid: nat)
    requires Lawful(c) && Working(w, pid, Published)
    ensures
      var w', p := NameIt(w, c, pid), Some(Names(c, w.publishers[pid].build));
      w'.trees == w.trees && w'.pointer == p && w'.macBootstrap == p && w'.winBootstrap == p
  {
    var w1 := Next(c, w, WriteMacBootstrap(pid));
    AlongStages(c, w, pid, WriteMacBootstrap(pid), MacBootstrapWritten);
    NamesWrittenExactlyWhen(c, w, WriteMacBootstrap(pid));
    var w2 := Next(c, w1, WriteWinBootstrap(pid));
    AlongStages(c, w1, pid, WriteWinBootstrap(pid), WinBootstrapWritten);
    NamesWrittenExactlyWhen(c, w1, WriteWinBootstrap(pid));
    NamesWrittenExactlyWhen(c, w2, WritePointer(pid));
  }

  /** The staging directory of a build, up to its verification. */
  function StageIt(w: World, c: Codec, pid: nat, b: Build): World {
    var w1 := Next(c, Next(c, w, Begin(pid, b)), CopyMac(pid, b.mac));
    Next(c, Next(c, Next(c, w1, CopyWin(pid, b.win)), WriteManifest(pid)), Verify(pid))
  }

  lemma StagedAtLast(c: Codec, w: World, pid: nat, b: Build)
    requires Lawful(c) && pid !in w.publishers && b.mac != [] && b.win != [] && b.version !in w.trees
    ensures
      var w' := StageIt(w, c, pid, b);
      && w'.trees == w.trees && pid in w'.publishers
      && w'.publishers[pid] == Publisher(b, Renaming(TreeOf(c, b)))
  {
    var t1 := map[MacBundle(b.version) := b.mac];
    var t2 := t1[WindowsInstaller(b.version) := b.win];
    var t3 := t2[ManifestJson := c.encode(BuildManifest(c, b))];
    var w0 := Next(c, w, Begin(pid, b));
    BeginsExactlyWhen(c, w, pid, b);
    StagingWritesNothing(c, w, Begin(pid, b));
    var w1 := Next(c, w0, CopyMac(pid, b.mac));
    AlongStages(c, w0, pid, CopyMac(pid, b.mac), CopyingWin(t1));
    StagingWritesNothing(c, w0, CopyMac(pid, b.mac));
    var w2 := Next(c, w1, CopyWin(pid, b.win));
    AlongStages(c, w1, pid, CopyWin(pid, b.win), WritingManifest(t2));
    StagingWritesNothing(c, w1, CopyWin(pid, b.win));
    var w3 := Next(c, w2, WriteManifest(pid));
    AlongStages(c, w2, pid, WriteManifest(pid), Verifying(t3));
    StagingWritesNothing(c, w2, WriteManifest(pid));
    ReleaseIs(c, t3, b);
    assert t3 == TreeOf(c, b);
    AlongStages(c, w3, pid, Verify(pid), Renaming(t3));
    StagingWritesNothing(c, w3, Verify(pid));
  }

  /**
   Whatever was published before: a build of a new version whose copies read what its metadata was taken from ends
   with its own directory in place and the channel and both bootstraps on it.
   */
  lemma NewVersionIsPublished(c: Codec, w: World, pid: nat, b: Build)
    requires Lawful(c) && pid !in w.publishers && b.mac != [] && b.win != [] && b.version !in w.trees
    ensures
      var w' := NameIt(Next(c, StageIt(w, c, pid, b), Rename(pid, false)), c, pid);
      var p := Some(Names(c, b));
      && b.version in w'.trees && IsReleaseOf(c, w'.trees[b.version], b)
      && (forall v :: v in w.trees ==> v in w'.trees && w'.trees[v] == w.trees[v])
      && w'.pointer == p && w'.macBootstrap == p && w'.winBootstrap == p
  {
    StagedAtLast(c, w, pid, b);
    var w1 := StageIt(w, c, pid, b);
    var w2 := Next(c, w1, Rename(pid, false));
    AlongStages(c, w1, pid, Rename(pid, false), Published);
    TreeAppearsExactlyWhen(c, w1, Rename(pid, false), b.version);
    ReleaseIs(c, TreeOf(c, b), b);
    forall v | v in w.trees
      ensures v in w2.trees && w2.trees[v] == w.trees[v]
    {
      StepKeepsTree(c, w1, Rename(pid, false), v);
    }
    NamedAtLast(c, w2, pid);
  }

  /**
   A version that is there already: publishing the same build again only names it once more, and publishing another
   build stops at the first look and writes nothing.
   */
  lemma KnownVersionIsCompared(c: Codec, w: World, pid: nat, b: Build)
    requires Lawful(c) && pid !in w.publishers && b.mac != [] && b.win != [] && b.version in w.trees
    ensures
      var w1 := Next(c, Next(c, w, Begin(pid, b)), CheckRoot(pid));
      if IsReleaseOf(c, w.trees[b.version], b) then
        var w', p := NameIt(w1, c, pid), Some(Names(c, b));
        w'.trees == w.trees && w'.pointer == p && w'.macBootstrap == p && w'.winBootstrap == p
      else
        && pid in w1.publishers && w1.publishers[pid].stage.Stopped?
        && w1.trees == w.trees && w1.pointer == w.pointer
        && w1.macBootstrap == w.macBootstrap && w1.winBootstrap == w.winBootstrap
  {
    var w0 := Next(c, w, Begin(pid, b));
    BeginsExactlyWhen(c, w, pid, b);
    StagingWritesNothing(c, w, Begin(pid, b));
    var w1 := Next(c, w0, CheckRoot(pid));
    StagingWritesNothing(c, w0, CheckRoot(pid));
    if IsReleaseOf(c, w.trees[b.version], b) {
      AlongStages(c, w0, pid, CheckRoot(pid), Published);
      NamedAtLast(c, w1, pid);
    } else {
      AlongStages(c, w0, pid, CheckRoot(pid), Stopped);
    }
  }

  // ----- a whole upgrade -----

  /** The one macOS artifact of a manifest. */
  ghost predicate OnlyMac(m: Manifest, i: nat) {
    && i < |m.artifacts| && m.artifacts[i].role.MacosCli?
    && forall j :: 0 <= j < |m.artifacts| && m.artifacts[j].role.MacosCli? ==> j == i
  }

  lemma {:induction false} MacClisAre(artifacts: seq<Artifact>)
    ensures |MacClis(artifacts)| == 0 <==> forall j :: 0 <= j < |artifacts| ==> !artifacts[j].role.MacosCli?
    ensures |MacClis(artifacts)| == 1 ==> exists i ::
      && 0 <= i < |artifacts| && artifacts[i].role.MacosCli? && MacClis(artifacts)[0] == artifacts[i]
      && forall j :: 0 <= j < |artifacts| && artifacts[j].role.MacosCli? ==> j == i
    ensures |MacClis(artifacts)| > 1 ==> exists i, j ::
      0 <= i < j < |artifacts| && artifacts[i].role.MacosCli? && artifacts[j].role.MacosCli?
  {
    if artifacts != [] {
      var n := |artifacts| - 1;
      var front := artifacts[..n];
      MacClisAre(front);
      assert forall j :: 0 <= j < n ==> front[j] == artifacts[j];
      if artifacts[n].role.MacosCli? && |MacClis(front)| > 0 {
        var i :| 0 <= i < n && front[i].role.MacosCli?;
        assert artifacts[i].role.MacosCli?;
      }
    }
  }

  /** What the metadata has to say for there to be a candidate. */
  ghost predicate Offers(c: Codec, p: Pointer, bytes: Bytes, k: Candidate) {
    && |bytes| <= 1048576 && c.sha(bytes) == p.digest && c.decode(bytes).Some?
    && var m := c.decode(bytes).value;
    && m.version == p.version
    && exists i: nat :: OnlyMac(m, i) && Fits(p, m.artifacts[i], k)
  }

  predicate Fits(p: Pointer, a: Artifact, k: Candidate) {
    && a.filename == MacBundle(p.version) && 1 <= a.size <= 2147483648
    && k == Candidate(p.version, a.filename, a.size, a.digest)
  }

  /**
   Whatever the channel names and the network returns: there is a candidate exactly when the bytes are no longer than
   allowed, have the pointer's digest, decode to a manifest of the pointer's version, and that has exactly one macOS
   artifact, of the right name and an allowed size.
   */
  lemma CandidateExactlyWhen(c: Codec, p: Pointer, bytes: Bytes, k: Candidate)
    ensures CandidateFrom(c, p, bytes) == Some(k) <==> Offers(c, p, bytes, k)
  {
    if c.decode(bytes).Some? {
      var m := c.decode(bytes).value;
      MacClisAre(m.artifacts);
      if i: nat :| OnlyMac(m, i) {
        assert |MacClis(m.artifacts)| == 1;
        assert MacClis(m.artifacts)[0] == m.artifacts[i];
      }
      if |MacClis(m.artifacts)| == 1 {
        var i :| 0 <= i < |m.artifacts| && m.artifacts[i].role.MacosCli? && MacClis(m.artifacts)[0] == m.artifacts[i]
              && forall j :: 0 <= j < |m.artifacts| && m.artifacts[j].role.MacosCli? ==> j == i;
        assert OnlyMac(m, i);
      }
    }
  }

  /** A client reads the channel, then gets some bytes for the manifest and some for the bundle. */
  function UpgradeIt(w: World, c: Codec, cid: nat, manifest: Bytes, bundle: Bytes): World {
    Next(c, Next(c, Next(c, w, ReadPointer(cid)), ReadManifest(cid, manifest)), ReadArtifact(cid, bundle))
  }

  /**
   In every run, whatever the network returns: an upgrade ends with the bundle accepted exactly when the bytes it got
   are those of the version directory that the channel names, and within the client's limits.
   */
  lemma UpgradeExactlyWhen(c: Codec, es: seq<Event>, cid: nat, manifest: Bytes, bundle: Bytes)
    requires Lawful(c) && cid !in Run(c, EMPTY_ROOT, es).clients && Run(c, EMPTY_ROOT, es).pointer.Some?
    ensures
      var w := Run(c, EMPTY_ROOT, es);
      var p, w' := w.pointer.value, UpgradeIt(w, c, cid, manifest, bundle);
      && cid in w'.clients && p.version in w.trees
      && ManifestJson in w.trees[p.version] && MacBundle(p.version) in w.trees[p.version]
      && w'.clients[cid] ==
           if manifest == w.trees[p.version][ManifestJson] && bundle == w.trees[p.version][MacBundle(p.version)]
              && |manifest| <= 1048576 && |bundle| <= 2147483648
           then Accepted(p, bundle) else Refused
  {
    var w := Run(c, EMPTY_ROOT, es);
    EmptyRootOk(c);
    RunKeepsInv(c, EMPTY_ROOT, es);
    var p := w.pointer.value;
    var b := w.builds[p.version];
    PointedTree(c, w, p);
    UpgradeSteps(c, w, cid, manifest, bundle);
    FetchedExactlyWhen(c, b, manifest, bundle);
  }

  lemma PointedTree(c: Codec, w: World, p: Pointer)
    requires Inv(c, w) && w.pointer == Some(p)
    ensures p.version in w.builds && p.version in w.trees && p.version == w.builds[p.version].version
    ensures w.builds[p.version].mac != [] && p.digest == ManifestDigest(c, w.builds[p.version])
    ensures
      var b, t := w.builds[p.version], w.trees[p.version];
      && ManifestJson in t && t[ManifestJson] == ManifestBytes(c, b)
      && MacBundle(p.version) in t && t[MacBundle(p.version)] == b.mac
  {
    assert w.trees[p.version] == TreeOf(c, w.builds[p.version]);
  }

  lemma UpgradeSteps(c: Codec, w: World, cid: nat, manifest: Bytes, bundle: Bytes)
    requires cid !in w.clients && w.pointer.Some?
    ensures
      var p, w' := w.pointer.value, UpgradeIt(w, c, cid, manifest, bundle);
      var k := CandidateFrom(c, p, manifest);
      && cid in w'.clients
      && w'.clients[cid] == if k.Some? && DownloadAccepts(c, k.value, bundle) then Accepted(p, bundle) else Refused
  {
    var p := w.pointer.value;
    var w1 := Next(c, w, ReadPointer(cid));
    assert cid in w1.clients && w1.clients[cid] == HavePointer(p);
    var w2 := Next(c, w1, ReadManifest(cid, manifest));
    var k := CandidateFrom(c, p, manifest);
    assert cid in w2.clients && w2.clients[cid] == if k.Some? then HaveCandidate(p, k.value) else Refused;
  }

  lemma FetchedExactlyWhen(c: Codec, b: Build, manifest: Bytes, bundle: Bytes)
    requires Lawful(c) && b.mac != []
    ensures
      var p := Pointer(b.version, ManifestDigest(c, b));
      var k := CandidateFrom(c, p, manifest);
      (k.Some? && DownloadAccepts(c, k.value, bundle)) <==>
        manifest == ManifestBytes(c, b) && bundle == b.mac && |manifest| <= 1048576 && |bundle| <= 2147483648
  {
    var p := Pointer(b.version, ManifestDigest(c, b));
    HonestFetchVerifies(c, b);
    var t := TreeOf(c, b);
    assert t[ManifestJson] == ManifestBytes(c, b) && t[MacBundle(b.version)] == b.mac;
    if CandidateFrom(c, p, manifest).Some? {
      assert manifest == ManifestBytes(c, b);
      CandidateIsGenuine(c, b, manifest);
    }
  }
}
