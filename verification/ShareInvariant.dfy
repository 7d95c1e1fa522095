/** What every run of `create_share` and `revoke_share` calls keeps, whatever fault stops each call. */
module ShareInvariant {
  import opened CloudPaths
  import opened ShareState
  import opened Store
  import opened Uuid

  // Each part of the invariant speaks of the components it depends on and no others.

  ghost predicate VersionsOk(versions: Versions, used: set<string>) {
    forall f :: f in versions ==> f in used && IsIdText(f) && versions[f].Shaped()
  }

  ghost predicate RowOk(row: ShareRecord, id: string, versions: Versions, used: set<string>) {
    && row.shareId == id && id in used
    && row.fileShareId in versions && versions[row.fileShareId].fileId == row.fileId
    && row.cloudPath == SharedPrefix(row.fileShareId)
  }

  /** Every row, revoked or not, belongs to the file its version was made from. */
  ghost predicate RowsOk(shares: Shares, versions: Versions, used: set<string>) {
    forall id :: id in shares ==> RowOk(shares[id], id, versions, used)
  }

  ghost predicate SnapshotsOk(snapshots: Snapshots, versions: Versions) {
    forall f :: f in snapshots ==> f in versions && snapshots[f] == versions[f].snapshot
  }

  ghost predicate ActiveHaveSnapshots(shares: Shares, snapshots: Snapshots) {
    forall id :: Active(shares, id) ==> shares[id].fileShareId in snapshots
  }

  ghost predicate OneVersionPerFile(shares: Shares) {
    forall a, b :: Active(shares, a) && Active(shares, b) && shares[a].fileId == shares[b].fileId ==>
      shares[a].fileShareId == shares[b].fileShareId
  }

  ghost predicate BlobsPresent(cloud: Cloud, f: string, v: SharedVersion)
    requires v.Shaped()
  {
    forall i :: 0 <= i < |v.blobs| ==>
      var path := BlobPath(f, v.snapshot.chunkUuids[i]);
      path in cloud && cloud[path] == v.blobs[i]
  }

  /** Every blob of every active share is in the cloud with its content, unless a last-recipient
      revocation of that share was attempted and failed. */
  ghost predicate ActiveHaveBlobs(shares: Shares, versions: Versions, cloud: Cloud, spoiled: set<string>) {
    forall id :: Active(shares, id) && shares[id].fileShareId in versions && shares[id].fileShareId !in spoiled ==>
      var f := shares[id].fileShareId;
      versions[f].Shaped() && BlobsPresent(cloud, f, versions[f])
  }

  /** Nothing lies under the prefix of a share id that was not drawn yet. */
  ghost predicate PathsOk(cloud: Cloud, used: set<string>) {
    forall path, f :: path in cloud && IsIdText(f) && SharedPrefix(f) <= path ==> f in used
  }

  /** Every version decrypts to the file it was made from. */
  ghost predicate VersionsEncrypt(w: World, versions: Versions) {
    forall f :: f in versions ==> versions[f].Encrypts(w, f)
  }

  /** Every package carries its version. */
  ghost predicate SentOk(w: World, versions: Versions, sent: seq<Sent>) {
    forall k :: 0 <= k < |sent| ==>
      && sent[k].fileShareId in versions && IsIdText(sent[k].packageId)
      && Genuine(w, versions[sent[k].fileShareId], sent[k])
  }

  /** The stores are in step. */
  ghost predicate StoresOk(s: State) {
    && VersionsOk(s.versions, s.used)
    && RowsOk(s.shares, s.versions, s.used)
    && SnapshotsOk(s.snapshots, s.versions)
    && ActiveHaveSnapshots(s.shares, s.snapshots)
    && OneVersionPerFile(s.shares)
    && ActiveHaveBlobs(s.shares, s.versions, s.cloud, s.spoiled)
    && PathsOk(s.cloud, s.used)
  }

  ghost predicate Inv(w: World, s: State) {
    StoresOk(s) && VersionsEncrypt(w, s.versions) && SentOk(w, s.versions, s.sent)
  }

  // ---------------------------------------------------------------- rows

  lemma RowsGrow(shares: Shares, versions: Versions, used: set<string>, versions': Versions, used': set<string>)
    requires RowsOk(shares, versions, used) && used <= used'
    requires forall f :: f in versions ==> f in versions' && versions'[f] == versions[f]
    ensures RowsOk(shares, versions', used')
  {
    forall id | id in shares
      ensures RowOk(shares[id], id, versions', used')
    {
      assert RowOk(shares[id], id, versions, used);
    }
  }

  lemma RowInserted(shares: Shares, versions: Versions, used: set<string>, row: ShareRecord)
    requires RowsOk(shares, versions, used) && RowOk(row, row.shareId, versions, used)
    ensures RowsOk(shares[row.shareId := row], versions, used)
  {
  }

  /** Marking a row as revoked leaves the other rows as active as they were. */
  lemma RowRevoked(shares: Shares, versions: Versions, used: set<string>, id: string, now: int)
    requires RowsOk(shares, versions, used) && id in shares
    ensures var shares' := Revoked(shares, id, now);
            && RowsOk(shares', versions, used)
            && forall other :: Active(shares', other) ==>
                 other != id && Active(shares, other) && shares'[other] == shares[other]
  {
    assert RowOk(shares[id], id, versions, used);
  }

  // ---------------------------------------------------------------- blobs

  /** Adding cloud paths that are no chunk blob of a version keeps its blobs. */
  lemma BlobsSurviveAdding(cloud: Cloud, extra: Cloud, f: string, v: SharedVersion)
    requires v.Shaped() && BlobsPresent(cloud, f, v)
    requires forall i :: 0 <= i < |v.blobs| ==> BlobPath(f, v.snapshot.chunkUuids[i]) !in extra
    ensures BlobsPresent(cloud + extra, f, v)
  {
    forall i | 0 <= i < |v.blobs|
      ensures var path := BlobPath(f, v.snapshot.chunkUuids[i]);
              path in cloud + extra && (cloud + extra)[path] == v.blobs[i]
    {
      assert BlobPath(f, v.snapshot.chunkUuids[i]) in cloud;
    }
  }

  /** A path under the prefix of one share is no chunk blob of another. */
  lemma ForeignPath(f: string, g: string, name: string, path: Path)
    requires IsIdText(f) && IsIdText(g) && f != g && SharedPrefix(g) <= path
    ensures path != BlobPath(f, name)
  {
    BlobPathUnder(f, name);
    if path == BlobPath(f, name) {
      SharedPrefixesDisjoint(f, g, path);
    }
  }

  lemma ForeignPaths(paths: set<Path>, f: string, v: SharedVersion, g: string)
    requires v.Shaped() && IsIdText(f) && IsIdText(g) && f != g
    requires forall path :: path in paths ==> SharedPrefix(g) <= path
    ensures forall i :: 0 <= i < |v.blobs| ==> BlobPath(f, v.snapshot.chunkUuids[i]) !in paths
  {
    forall i | 0 <= i < |v.blobs|
      ensures BlobPath(f, v.snapshot.chunkUuids[i]) !in paths
    {
      var path := BlobPath(f, v.snapshot.chunkUuids[i]);
      if path in paths {
        ForeignPath(f, g, v.snapshot.chunkUuids[i], path);
      }
    }
  }

  lemma ReceiptPaths(paths: set<Path>, f: string, v: SharedVersion, g: string)
    requires v.Shaped() && IsIdText(f) && IsIdText(g)
    requires forall path :: path in paths ==> IsReceiptPath(g, path)
    ensures forall i :: 0 <= i < |v.blobs| ==> BlobPath(f, v.snapshot.chunkUuids[i]) !in paths
  {
    if f == g {
      forall i | 0 <= i < |v.blobs|
        ensures BlobPath(f, v.snapshot.chunkUuids[i]) !in paths
      {
        ReceiptNotBlob(f, v.snapshot.chunkUuids[i]);
      }
    } else {
      forall path | path in paths
        ensures SharedPrefix(g) <= path
      {
        ReceiptUnder(g, path);
      }
      ForeignPaths(paths, f, v, g);
    }
  }

  lemma BlobsAtUnder(f: string, v: SharedVersion, indices: set<nat>)
    requires v.Shaped() && Within(indices, |v.blobs|)
    ensures forall path :: path in BlobsAt(f, v, indices) ==> SharedPrefix(f) <= path
  {
    forall path | path in BlobsAt(f, v, indices)
      ensures SharedPrefix(f) <= path
    {
      var i :| i in indices && path == PathsOf(f, v)[i];
      BlobPathUnder(f, v.snapshot.chunkUuids[i]);
    }
  }

  lemma AllBlobsPresent(cloud: Cloud, f: string, v: SharedVersion)
    requires v.Shaped()
    ensures BlobsPresent(cloud + AllBlobs(f, v), f, v)
  {
    var after := cloud + AllBlobs(f, v);
    PathsDistinct(f, v);
    forall i | 0 <= i < |v.blobs|
      ensures var path := BlobPath(f, v.snapshot.chunkUuids[i]); path in after && after[path] == v.blobs[i]
    {
      PickedAt(PathsOf(f, v), v.blobs, Below(|v.blobs|), i);
    }
  }

  /** Placeholders of a receipt folder keep every active share complete. */
  lemma ReceiptsKeepBlobs(shares: Shares, versions: Versions, used: set<string>, cloud: Cloud, spoiled: set<string>,
                          extra: Cloud, g: string)
    requires VersionsOk(versions, used) && ActiveHaveBlobs(shares, versions, cloud, spoiled)
    requires IsIdText(g) && forall path :: path in extra ==> IsReceiptPath(g, path)
    ensures ActiveHaveBlobs(shares, versions, cloud + extra, spoiled)
  {
    forall id | Active(shares, id) && shares[id].fileShareId in versions && shares[id].fileShareId !in spoiled
      ensures var f := shares[id].fileShareId; BlobsPresent(cloud + extra, f, versions[f])
    {
      var f := shares[id].fileShareId;
      ReceiptPaths(extra.Keys, f, versions[f], g);
      BlobsSurviveAdding(cloud, extra, f, versions[f]);
    }
  }

  /** So do blobs under a prefix that no row knows. */
  lemma ForeignKeepsBlobs(shares: Shares, versions: Versions, used: set<string>, cloud: Cloud, spoiled: set<string>,
                          extra: Cloud, g: string)
    requires VersionsOk(versions, used) && ActiveHaveBlobs(shares, versions, cloud, spoiled)
    requires IsIdText(g) && forall path :: path in extra ==> SharedPrefix(g) <= path
    requires forall id :: Active(shares, id) ==> shares[id].fileShareId != g
    ensures ActiveHaveBlobs(shares, versions, cloud + extra, spoiled)
  {
    forall id | Active(shares, id) && shares[id].fileShareId in versions && shares[id].fileShareId !in spoiled
      ensures var f := shares[id].fileShareId; BlobsPresent(cloud + extra, f, versions[f])
    {
      var f := shares[id].fileShareId;
      ForeignPaths(extra.Keys, f, versions[f], g);
      BlobsSurviveAdding(cloud, extra, f, versions[f]);
    }
  }

  /** Deleting under one prefix keeps every active share of another version complete. */
  lemma DeletingKeepsBlobs(shares: Shares, versions: Versions, used: set<string>, cloud: Cloud, spoiled: set<string>,
                           paths: set<Path>, g: string)
    requires VersionsOk(versions, used) && ActiveHaveBlobs(shares, versions, cloud, spoiled)
    requires IsIdText(g) && forall path :: path in paths ==> SharedPrefix(g) <= path
    requires g in spoiled || forall id :: Active(shares, id) ==> shares[id].fileShareId != g
    ensures ActiveHaveBlobs(shares, versions, cloud - paths, spoiled)
  {
    forall id | Active(shares, id) && shares[id].fileShareId in versions && shares[id].fileShareId !in spoiled
      ensures var f := shares[id].fileShareId; BlobsPresent(cloud - paths, f, versions[f])
    {
      var f := shares[id].fileShareId;
      ForeignPaths(paths, f, versions[f], g);
    }
  }

  lemma PathsOkAdding(cloud: Cloud, used: set<string>, used': set<string>, extra: Cloud, f: string)
    requires PathsOk(cloud, used) && used <= used'
    requires IsIdText(f) && f in used'
    requires forall path :: path in extra ==> SharedPrefix(f) <= path
    ensures PathsOk(cloud + extra, used')
  {
    forall path, g | path in cloud + extra && IsIdText(g) && SharedPrefix(g) <= path
      ensures g in used'
    {
      if path in extra {
        SharedPrefixesDisjoint(f, g, path);
      }
    }
  }

  // ---------------------------------------------------------------- one call at a time

  /** The second half of `create_share`. */
  lemma TailKeepsStores(s: State, req: Request, f: string, d: Draws, tail: Tail)
    requires StoresOk(s) && f in s.snapshots && s.versions[f].fileId == req.fileId
    requires TailEnabled(f, tail)
    requires Hyphenated(d.shareId) in s.used && Hyphenated(d.shareId) !in s.shares
    requires f !in s.spoiled ==> BlobsPresent(s.cloud, f, s.versions[f])
    requires forall id :: Active(s.shares, id) && s.shares[id].fileId == req.fileId ==> s.shares[id].fileShareId == f
    ensures StoresOk(AfterTail(s, req, f, d, tail))
  {
    var cloud := s.cloud + tail.placeholders;
    ReceiptsKeepBlobs(s.shares, s.versions, s.used, s.cloud, s.spoiled, tail.placeholders, f);
    forall path | path in tail.placeholders
      ensures SharedPrefix(f) <= path
    {
      ReceiptUnder(f, path);
    }
    PathsOkAdding(s.cloud, s.used, s.used, tail.placeholders, f);
    if tail.Packaged? && tail.stored {
      var row := NewRow(req, f, d, tail.delivery);
      RowInserted(s.shares, s.versions, s.used, row);
      NewRowKeepsActive(s.shares, s.snapshots, row);
      if f !in s.spoiled {
        ReceiptPaths(tail.placeholders.Keys, f, s.versions[f], f);
        BlobsSurviveAdding(s.cloud, tail.placeholders, f, s.versions[f]);
      }
      NewRowKeepsBlobs(s.shares, s.versions, cloud, s.spoiled, row);
    }
  }

  lemma NewRowKeepsActive(shares: Shares, snapshots: Snapshots, row: ShareRecord)
    requires ActiveHaveSnapshots(shares, snapshots) && OneVersionPerFile(shares)
    requires row.fileShareId in snapshots && row.shareId !in shares
    requires forall id :: Active(shares, id) && shares[id].fileId == row.fileId ==>
               shares[id].fileShareId == row.fileShareId
    ensures ActiveHaveSnapshots(shares[row.shareId := row], snapshots)
    ensures OneVersionPerFile(shares[row.shareId := row])
  {
    assert forall id :: Active(shares[row.shareId := row], id) ==> id == row.shareId || Active(shares, id);
  }

  lemma NewRowKeepsBlobs(shares: Shares, versions: Versions, cloud: Cloud, spoiled: set<string>, row: ShareRecord)
    requires ActiveHaveBlobs(shares, versions, cloud, spoiled) && row.shareId !in shares
    requires row.fileShareId in versions && versions[row.fileShareId].Shaped()
    requires row.fileShareId !in spoiled ==> BlobsPresent(cloud, row.fileShareId, versions[row.fileShareId])
    ensures ActiveHaveBlobs(shares[row.shareId := row], versions, cloud, spoiled)
  {
    assert forall id :: Active(shares[row.shareId := row], id) ==> id == row.shareId || Active(shares, id);
  }

  /** Blobs, a version and ids under a fresh share id. */
  lemma FreshCloudKeepsStores(s: State, s': State, extra: Cloud, f: string, v: SharedVersion)
    requires StoresOk(s) && f !in s.used && IsIdText(f)
    requires forall path :: path in extra ==> SharedPrefix(f) <= path
    requires s.used + {f} <= s'.used
    requires s'.versions == s.versions || (s'.versions == s.versions[f := v] && v.Shaped())
    requires s' == s.(cloud := s.cloud + extra, used := s'.used, versions := s'.versions)
    ensures StoresOk(s')
  {
    RowsGrow(s.shares, s.versions, s.used, s'.versions, s'.used);
    NoActiveRowKnows(s, f);
    ForeignKeepsBlobs(s.shares, s.versions, s.used, s.cloud, s.spoiled, extra, f);
    assert ActiveHaveBlobs(s.shares, s'.versions, s.cloud + extra, s.spoiled);
    PathsOkAdding(s.cloud, s.used, s'.used, extra, f);
  }

  lemma NoActiveRowKnows(s: State, f: string)
    requires StoresOk(s) && f !in s.used
    ensures f !in s.versions
    ensures forall id :: Active(s.shares, id) ==> s.shares[id].fileShareId != f
  {
    forall id | Active(s.shares, id)
      ensures s.shares[id].fileShareId != f
    {
      assert RowOk(s.shares[id], id, s.versions, s.used);
    }
  }

  lemma DrawnIdIsNew(s: State, id: string)
    requires RowsOk(s.shares, s.versions, s.used) && id !in s.used
    ensures id !in s.shares
  {
    assert forall other :: other in s.shares ==> RowOk(s.shares[other], other, s.versions, s.used);
  }

  /** After the upload under a fresh id the stores are in step, and the new blobs are all there. */
  lemma UploadKeepsStores(w: World, s: State, req: Request, file: VaultFile, d: Draws)
    requires StoresOk(s) && file.Valid() && d.Cover(file) && d.Fresh(s.used)
    ensures StoresOk(AfterUpload(w, s, req, file, d))
    ensures NewVersion(w, req, file, d).Shaped()
    ensures BlobsPresent(AfterUpload(w, s, req, file, d).cloud, Hyphenated(d.fileShareId), NewVersion(w, req, file, d))
  {
    var f, v := Hyphenated(d.fileShareId), NewVersion(w, req, file, d);
    NewVersionShaped(w, req, file, d, s.used);
    BlobsAtUnder(f, v, Below(|v.blobs|));
    AllBlobsPresent(s.cloud, f, v);
    FreshCloudKeepsStores(s, AfterUpload(w, s, req, file, d), AllBlobs(f, v), f, v);
  }

  lemma SnapshotInserted(s: State, f: string, snapshot: FileShareSnapshot)
    requires StoresOk(s) && f in s.versions && s.versions[f].snapshot == snapshot
    ensures StoresOk(s.(snapshots := s.snapshots[f := snapshot]))
  {
  }

  lemma SnapshotKeepsStores(w: World, s: State, req: Request, file: VaultFile, d: Draws)
    requires StoresOk(s) && file.Valid() && d.Cover(file) && d.Fresh(s.used)
    ensures StoresOk(AfterSnapshot(w, s, req, file, d))
    ensures NewVersion(w, req, file, d).Shaped()
    ensures BlobsPresent(AfterSnapshot(w, s, req, file, d).cloud, Hyphenated(d.fileShareId),
                         NewVersion(w, req, file, d))
  {
    UploadKeepsStores(w, s, req, file, d);
    SnapshotInserted(AfterUpload(w, s, req, file, d), Hyphenated(d.fileShareId), NewSnapshot(w, req, file, d));
  }

  lemma ShareFreshKeepsStores(w: World, s: State, e: Event)
    requires StoresOk(s) && e.ShareFresh? && Enabled(s, e)
    ensures StoresOk(Apply(w, s, e))
  {
    hide BlobsPresent, AllBlobs, Hyphenated;
    match e.stage
    case BuildFailed(leftover) =>
      FreshCloudKeepsStores(s, Apply(w, s, e), leftover, Hyphenated(e.draws.fileShareId),
                            NewVersion(w, e.req, e.file, e.draws));
    case SnapshotRefused(_) =>
      UploadKeepsStores(w, s, e.req, e.file, e.draws);
      SnapshotKeepsStores(w, s, e.req, e.file, e.draws);
    case SnapshotStored(tail) =>
      SnapshotKeepsStores(w, s, e.req, e.file, e.draws);
      DrawnIdIsNew(s, Hyphenated(e.draws.shareId));
      TailKeepsStores(AfterSnapshot(w, s, e.req, e.file, e.draws), e.req, Hyphenated(e.draws.fileShareId), e.draws,
                      tail);
  }

  lemma ShareAgainKeepsStores(w: World, s: State, e: Event)
    requires StoresOk(s) && e.ShareAgain? && Enabled(s, e)
    ensures StoresOk(Apply(w, s, e))
  {
    var f := e.fileShareId;
    var id :| Active(s.shares, id) && s.shares[id].fileId == e.req.fileId && s.shares[id].fileShareId == f;
    assert RowOk(s.shares[id], id, s.versions, s.used);
    var s1 := s.(used := s.used + {Hyphenated(e.draws.shareId)});
    RowsGrow(s.shares, s.versions, s.used, s1.versions, s1.used);
    DrawnIdIsNew(s, Hyphenated(e.draws.shareId));
    TailKeepsStores(s1, e.req, f, e.draws, e.tail);
  }

  lemma RevokedRowKeepsStores(s: State, id: string, now: int)
    requires StoresOk(s) && id in s.shares
    ensures StoresOk(s.(shares := Revoked(s.shares, id, now)))
  {
    RowRevoked(s.shares, s.versions, s.used, id, now);
  }

  /** Deleting blobs under the prefix of a version that has no active row, or is spoiled. */
  lemma DeletingKeepsStores(s: State, paths: set<Path>, f: string)
    requires StoresOk(s) && IsIdText(f)
    requires forall path :: path in paths ==> SharedPrefix(f) <= path
    requires f in s.spoiled || forall id :: Active(s.shares, id) ==> s.shares[id].fileShareId != f
    ensures StoresOk(s.(cloud := s.cloud - paths))
  {
    DeletingKeepsBlobs(s.shares, s.versions, s.used, s.cloud, s.spoiled, paths, f);
    assert PathsOk(s.cloud - paths, s.used);
  }

  lemma DeletedUnderPrefix(listing: seq<Path>, cloud: Cloud, prefix: Path, progress: Progress)
    requires progress.ListFailed? || IsListing(listing, cloud, prefix)
    ensures forall path :: path in Deleted(listing, progress) ==> prefix < path
  {
    assert forall path :: path in Deleted(listing, progress) ==> path in listing;
  }

  lemma SpoilingKeepsStores(s: State, spoiled: set<string>)
    requires StoresOk(s) && s.spoiled <= spoiled
    ensures StoresOk(s.(spoiled := spoiled))
  {
  }

  lemma DroppingSnapshotKeepsStores(s: State, f: string)
    requires StoresOk(s) && forall id :: Active(s.shares, id) ==> s.shares[id].fileShareId != f
    ensures StoresOk(s.(snapshots := s.snapshots - {f}))
  {
  }

  lemma RowIdText(s: State, id: string)
    requires StoresOk(s) && id in s.shares
    ensures IsIdText(s.shares[id].fileShareId)
  {
    assert RowOk(s.shares[id], id, s.versions, s.used);
  }

  lemma RevokeLastKeepsStores(s: State, id: string, now: int, deleted: seq<Path>, progress: Progress)
    requires StoresOk(s) && Active(s.shares, id) && !HasSibling(s.shares, id)
    requires forall path :: path in deleted ==> SharedPrefix(s.shares[id].fileShareId) <= path
    ensures StoresOk(AfterRevokeLast(s, id, now, deleted, progress))
  {
    hide StoresOk, SharedPrefix, Revoked;
    var f := s.shares[id].fileShareId;
    var paths := set path | path in deleted;
    RowIdText(s, id);
    var s1 := s.(spoiled := if progress.Finished? then s.spoiled else s.spoiled + {f});
    SpoilingKeepsStores(s, s1.spoiled);
    if RowDone(progress) {
      RetiringKeepsStores(s1, id, now, paths);
    } else {
      DeletingKeepsStores(s1, paths, f);
    }
  }

  /** The only active row of a version is marked, its blobs are deleted and its snapshot may go. */
  lemma RetiringKeepsStores(s: State, id: string, now: int, paths: set<Path>)
    requires StoresOk(s) && Active(s.shares, id) && !HasSibling(s.shares, id)
    requires IsIdText(s.shares[id].fileShareId)
    requires forall path :: path in paths ==> SharedPrefix(s.shares[id].fileShareId) <= path
    ensures var t := s.(shares := Revoked(s.shares, id, now), cloud := s.cloud - paths);
            StoresOk(t) && StoresOk(t.(snapshots := s.snapshots - {s.shares[id].fileShareId}))
  {
    var f, t := s.shares[id].fileShareId, s.(shares := Revoked(s.shares, id, now));
    RowRevoked(s.shares, s.versions, s.used, id, now);
    assert forall other :: Active(t.shares, other) ==> t.shares[other].fileShareId != f;
    RevokedRowKeepsStores(s, id, now);
    hide StoresOk, SharedPrefix, Revoked;
    DeletingKeepsStores(t, paths, f);
    DroppingSnapshotKeepsStores(t.(cloud := s.cloud - paths), f);
  }

  lemma EventKeepsStores(w: World, s: State, e: Event)
    requires StoresOk(s) && Enabled(s, e)
    ensures StoresOk(Apply(w, s, e))
  {
    hide StoresOk, NewVersion, Hyphenated;
    match e
    case Idle =>
    case ShareFresh(_, _, _, _) => ShareFreshKeepsStores(w, s, e);
    case ShareAgain(_, _, _, _) => ShareAgainKeepsStores(w, s, e);
    case RevokeOne(id, now, stored, _) =>
      if stored {
        RevokedRowKeepsStores(s, id, now);
      }
    case RevokeLast(id, now, listing, progress) =>
      DeletedUnderPrefix(listing, s.cloud, SharedPrefix(s.shares[id].fileShareId), progress);
      RevokeLastKeepsStores(s, id, now, Deleted(listing, progress), progress);
  }
}
