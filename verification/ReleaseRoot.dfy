/**
 The release root as one publisher changes it (build_public_release, _same_version_tree in
 tools/build_public_release.py) and the bundle as one client downloads it (_download in
 src/vgen/cli/upgrade.py).
 */
module ReleaseRoots {
  import opened Common
  import opened Releases

  /** _same_version_tree: every file is compared by size, then by digest. */
  method SameVersionTree(c: Codec, t: Tree, expected: map<FileName, (nat, string)>) returns (same: bool)
    ensures same == SameTree(c, t, expected)
  {
    if t.Keys != expected.Keys {
      return false;
    }
    var children := t.Keys;
    while children != {}
      invariant children <= t.Keys
      invariant forall f :: f in t.Keys - children ==> |t[f]| == expected[f].0 && c.sha(t[f]) == expected[f].1
      decreases |children|
    {
      var child :| child in children;
      var (size, digest) := expected[child];
      if |t[child]| != size || c.sha(t[child]) != digest {
        return false;
      }
      children := children - {child};
    }
    return true;
  }

  class ReleaseRoot {
    var trees: map<string, Tree>
    var pointer: Option<Pointer>
    var macBootstrap: Option<Pointer>
    var winBootstrap: Option<Pointer>

    constructor ()
      ensures trees == map[] && pointer == None && macBootstrap == None && winBootstrap == None
    {
      trees, pointer, macBootstrap, winBootstrap := map[], None, None, None;
    }

    /**
     build_public_release of a validated build; macCopy and winCopy are the bundles as the copies read
     them, after their metadata was taken.
     */
    method Publish(c: Codec, b: Build, macCopy: Bytes, winCopy: Bytes) returns (ok: bool)
      requires Lawful(c)
      modifies this
      ensures ok <==> if b.version in old(trees) then old(trees)[b.version] == TreeOf(c, b)
                      else macCopy == b.mac && winCopy == b.win
      ensures ok ==> trees == old(trees)[b.version := TreeOf(c, b)]
      ensures ok ==> pointer == Some(Pointer(b.version, ManifestDigest(c, b)))
      ensures ok ==> macBootstrap == pointer && winBootstrap == pointer
      ensures !ok ==> unchanged(this)
    {
      var expected := Expected(c, b);
      if b.version in trees {
        var same := SameVersionTree(c, trees[b.version], expected);
        SameTreeIsEqual(c, trees[b.version], b);
        if !same {
          return false;
        }
      } else {
        var staging: Tree := map[];
        staging := staging[MacBundle(b.version) := macCopy];
        staging := staging[WindowsInstaller(b.version) := winCopy];
        staging := staging[ManifestJson := ManifestBytes(c, b)];
        var same := SameVersionTree(c, staging, expected);
        SameTreeIsEqual(c, staging, b);
        assert staging[MacBundle(b.version)] == macCopy && staging[WindowsInstaller(b.version)] == winCopy;
        if !same {
          assert macCopy == b.mac && winCopy == b.win ==> staging == TreeOf(c, b);
          return false;
        }
        trees := trees[b.version := staging];
      }
      var named := Some(Pointer(b.version, ManifestDigest(c, b)));
      macBootstrap := named;
      winBootstrap := named;
      pointer := named;
      return true;
    }
  }

  datatype DownloadResult = Downloaded | Rejected | NetworkFailed

  const BLOCK := 1024 * 1024

  /**
   _download: the response yields the bytes of body in blocks of any size up to the one asked for, and may
   break off with an error once brokenAt bytes were read. No more than the declared size is ever written,
   and the file is kept exactly when it is the whole body, of the declared size and digest.
   */
  method Download(c: Codec, k: Candidate, contentLength: Option<int>, body: Bytes, brokenAt: Option<nat>)
    returns (r: DownloadResult, written: Bytes)
    ensures written <= body && |written| <= k.size
    ensures r.Downloaded? <==>
      && (contentLength.None? || contentLength.value == k.size)
      && (brokenAt.None? || |body| < brokenAt.value)
      && DownloadAccepts(c, k, body)
    ensures r.Downloaded? ==> written == body
    ensures r.NetworkFailed? <==>
      && (contentLength.None? || contentLength.value == k.size)
      && brokenAt.Some? && brokenAt.value <= |body| && brokenAt.value <= k.size
  {
    written := [];
    if contentLength.Some? && contentLength.value != k.size {
      return Rejected, written;
    }
    var downloaded := 0;
    while true
      invariant downloaded <= |body| && downloaded == |written| && written == body[..downloaded] && downloaded <= k.size
      invariant brokenAt.Some? ==> downloaded <= brokenAt.value
      decreases |body| - downloaded
    {
      var want := if BLOCK < k.size - downloaded + 1 then BLOCK else k.size - downloaded + 1;
      var available := if want < |body| - downloaded then want else |body| - downloaded;
      if brokenAt.Some? {
        if downloaded == brokenAt.value {
          return NetworkFailed, written;
        }
        if brokenAt.value - downloaded < available {
          available := brokenAt.value - downloaded;
        }
      }
      if available == 0 {
        break;
      }
      var got: int := *;
      if got <= 0 || available < got {
        got := available;
      }
      var block := body[downloaded..downloaded + got];
      downloaded := downloaded + got;
      if downloaded > k.size {
        return Rejected, written;
      }
      written := written + block;
    }
    assert written == body;
    if downloaded != k.size || c.sha(written) != k.digest {
      return Rejected, written;
    }
    return Downloaded, written;
  }
}
