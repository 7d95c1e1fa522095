/** Cloud-relative blob paths: `vault/...` and `shared/<file_share_id>/...`. */
module CloudPaths {
  import opened Bytes
  import VaultPath

  type Path = string

  const VAULT_PREFIX: Path := "vault/"
  const SHARED: Path := "shared/"

  /** The texts `Uuid::new_v4().hyphenated()` yields; the length is what keeps prefixes apart. */
  predicate IsIdText(s: string) {
    |s| == 36 && '/' !in s
  }

  function SharedPrefix(fileShareId: string): Path {
    SHARED + fileShareId + "/"
  }

  function BlobPath(fileShareId: string, blobName: string): Path {
    SharedPrefix(fileShareId) + blobName + ".blob"
  }

  /** Receipt placeholders live in two sub-folders of a share. */
  predicate IsReceiptPath(fileShareId: string, path: Path) {
    SharedPrefix(fileShareId) + "receipts/" <= path || SharedPrefix(fileShareId) + "import-receipts/" <= path
  }

  lemma PrefixTaken<T>(a: seq<T>, b: seq<T>, q: seq<T>)
    requires a <= q && b <= q && |a| == |b|
    ensures a == b
  {
    assert a == q[..|a|] && b == q[..|b|];
  }

  /** A path lies under the prefix of at most one share. */
  lemma SharedPrefixesDisjoint(f: string, g: string, path: Path)
    requires IsIdText(f) && IsIdText(g)
    requires SharedPrefix(f) <= path && SharedPrefix(g) <= path
    ensures f == g
  {
    PrefixTaken(SharedPrefix(f), SharedPrefix(g), path);
    ConcatInjective(SHARED + f, "/", SHARED + g, "/");
    ConcatInjective(SHARED, f, SHARED, g);
  }

  /** No vault blob lies under the prefix of a share. */
  lemma VaultNotShared(f: string, path: Path)
    requires VAULT_PREFIX <= path
    ensures !(SharedPrefix(f) <= path)
  {
    assert path[0] == 'v' && SharedPrefix(f)[0] == 's';
  }

  lemma BlobPathUnder(f: string, name: string)
    ensures SharedPrefix(f) < BlobPath(f, name)
  {
  }

  lemma BlobPathInjective(f: string, name: string, name': string)
    requires BlobPath(f, name) == BlobPath(f, name')
    requires |name| == |name'|
    ensures name == name'
  {
    ConcatInjective(SharedPrefix(f) + name, ".blob", SharedPrefix(f) + name', ".blob");
    ConcatInjective(SharedPrefix(f), name, SharedPrefix(f), name');
  }

  lemma ReceiptUnder(f: string, path: Path)
    requires IsReceiptPath(f, path)
    ensures SharedPrefix(f) < path
  {
    if SharedPrefix(f) + "receipts/" <= path {
      assert path[..|SharedPrefix(f)|] == SharedPrefix(f);
    } else {
      assert path[..|SharedPrefix(f)|] == SharedPrefix(f);
    }
  }

  /** A receipt never overwrites a chunk blob. */
  lemma ReceiptNotBlob(f: string, name: string)
    requires IsIdText(name)
    ensures !IsReceiptPath(f, BlobPath(f, name))
  {
    var prefix, path := SharedPrefix(f), BlobPath(f, name);
    assert path[|prefix| + 8] == name[8] && path[|prefix| + 15] == name[15];
    assert (prefix + "receipts/")[|prefix| + 8] == '/';
    assert (prefix + "import-receipts/")[|prefix| + 15] == '/';
  }

  // ---------------------------------------------------------------- blobs by index

  ghost predicate Distinct(paths: seq<Path>) {
    forall i, j :: 0 <= i < |paths| && 0 <= j < |paths| && i != j ==> paths[i] != paths[j]
  }

  ghost predicate Within(indices: set<nat>, n: nat) {
    forall i :: i in indices ==> i < n
  }

  /** The blobs with the given indices, at their paths. */
  ghost function Picked<T>(paths: seq<Path>, blobs: seq<T>, indices: set<nat>): map<Path, T>
    requires |paths| == |blobs| && Distinct(paths) && Within(indices, |paths|)
  {
    map i | i in indices :: paths[i] := blobs[i]
  }

  lemma PickedAt<T>(paths: seq<Path>, blobs: seq<T>, indices: set<nat>, i: nat)
    requires |paths| == |blobs| && Distinct(paths) && Within(indices, |paths|) && i < |paths|
    ensures paths[i] in Picked(paths, blobs, indices) <==> i in indices
    ensures i in indices ==> Picked(paths, blobs, indices)[paths[i]] == blobs[i]
  {
  }

  function PathSet(paths: seq<Path>): (keys: set<Path>)
    ensures forall i :: 0 <= i < |paths| ==> paths[i] in keys
  {
    set q | q in paths
  }

  /** `cloud` is `before` with, of the given paths, exactly those with indices in `indices` filled. */
  ghost predicate Filled<T>(before: map<Path, T>, cloud: map<Path, T>, paths: seq<Path>, blobs: seq<T>,
                            indices: set<nat>)
    requires |paths| == |blobs|
  {
    && cloud - PathSet(paths) == before
    && (forall i :: 0 <= i < |paths| ==>
          (paths[i] in cloud <==> i in indices) && (i in indices ==> cloud[paths[i]] == blobs[i]))
  }

  lemma FilledStart<T>(before: map<Path, T>, paths: seq<Path>, blobs: seq<T>)
    requires |paths| == |blobs| && forall i :: 0 <= i < |paths| ==> paths[i] !in before
    ensures Filled(before, before, paths, blobs, {})
  {
    assert before - PathSet(paths) == before;
  }

  lemma FilledMore<T>(before: map<Path, T>, cloud: map<Path, T>, paths: seq<Path>, blobs: seq<T>, indices: set<nat>,
                      i: nat)
    requires |paths| == |blobs| && Distinct(paths) && i < |paths| && Filled(before, cloud, paths, blobs, indices)
    ensures Filled(before, cloud[paths[i] := blobs[i]], paths, blobs, indices + {i})
  {
    assert cloud[paths[i] := blobs[i]] - PathSet(paths) == cloud - PathSet(paths);
  }

  lemma FilledLess<T>(before: map<Path, T>, cloud: map<Path, T>, paths: seq<Path>, blobs: seq<T>, indices: set<nat>,
                      i: nat)
    requires |paths| == |blobs| && Distinct(paths) && i < |paths| && Filled(before, cloud, paths, blobs, indices)
    ensures Filled(before, cloud - {paths[i]}, paths, blobs, indices - {i})
  {
    assert cloud - {paths[i]} - PathSet(paths) == cloud - PathSet(paths);
  }

  lemma FilledIsPicked<T>(before: map<Path, T>, cloud: map<Path, T>, paths: seq<Path>, blobs: seq<T>, indices: set<nat>)
    requires |paths| == |blobs| && Distinct(paths) && Within(indices, |paths|)
    requires Filled(before, cloud, paths, blobs, indices)
    ensures cloud == before + Picked(paths, blobs, indices)
    ensures cloud == before <==> indices == {}
  {
    var picked := Picked(paths, blobs, indices);
    forall q
      ensures q in cloud <==> q in before + picked
      ensures q in cloud ==> cloud[q] == (before + picked)[q]
    {
      FilledAt(before, cloud, paths, blobs, indices, q);
    }
    if indices == {} {
      assert picked == map[];
    } else {
      var i :| i in indices;
      assert paths[i] in cloud && paths[i] !in cloud - PathSet(paths);
    }
  }

  lemma FilledAt<T>(before: map<Path, T>, cloud: map<Path, T>, paths: seq<Path>, blobs: seq<T>, indices: set<nat>,
                    q: Path)
    requires |paths| == |blobs| && Distinct(paths) && Within(indices, |paths|)
    requires Filled(before, cloud, paths, blobs, indices)
    ensures var all := before + Picked(paths, blobs, indices);
            (q in cloud <==> q in all) && (q in cloud ==> cloud[q] == all[q])
  {
    if q in PathSet(paths) {
      var i :| 0 <= i < |paths| && q == paths[i];
      PickedAt(paths, blobs, indices, i);
    } else {
      assert q in cloud <==> q in cloud - PathSet(paths);
    }
  }

  /** The path of a blob, piece by piece. */
  lemma BlobPathPieces(f: string, name: string)
    requires '/' !in f && '/' !in name
    ensures VaultPath.Split(BlobPath(f, name)) == ["shared", f, name + ".blob"]
  {
    hide VaultPath.Split;
    var last := name + ".blob";
    SharedIsOnePiece();
    VaultPath.SplitSnoc("shared", f);
    VaultPath.SplitSnoc("shared" + "/" + f, last);
    assert BlobPath(f, name) == "shared" + "/" + f + "/" + last;
    assert ["shared"] + [f] + [last] == ["shared", f, last];
  }

  lemma SharedIsOnePiece()
    ensures VaultPath.Split("shared") == ["shared"]
  {
    VaultPath.NoSlash("shared");
  }
}
