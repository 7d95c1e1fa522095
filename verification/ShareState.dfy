/** The lifecycle of outgoing shares as a state machine. A state holds the three stores that
    `create_share` and `revoke_share` keep in step (share rows, snapshots, cloud blobs); an event is
    one call together with how far it got before a fault stopped it. Calls run one at a time. */
module ShareState {
  import opened Aead
  import opened Bytes
  import opened CloudPaths
  import opened DataPath
  import opened Envelope
  import Hpke
  import opened Packages
  import opened Store
  import opened Uuid
  import opened Wrappers

  /** What stays fixed over a run: libraries, the vault's key-encryption key and its public key. */
  datatype World = World(p: Primitives, codec: Codec, kek: Bytes32, ownPublicKey: Bytes32)

  datatype Request = Request(fileId: string, contactId: string, expiresAt: Option<int>, now: int)

  /** A file as the vault yields it: node name, decrypted content, and the vault's chunk size. */
  datatype VaultFile = VaultFile(name: string, plaintext: seq<byte>, chunkSize: nat) {
    predicate Valid() {
      chunkSize < U32_LIMIT && (chunkSize > 0 || plaintext == [])
    }
  }

  /** The random draws of one `create_share` call. */
  datatype Draws = Draws(
    fileShareId: V4, shareFileId: V4, shareKey: Bytes32, blobNames: seq<V4>, nonces: seq<Bytes24>,
    wrapNonce: Bytes24, packageId: V4, ephemeral: Bytes32, shareId: V4)
  {
    /** UUIDs do not repeat. */
    ghost predicate Fresh(used: set<string>) {
      && Hyphenated(fileShareId) !in used && Hyphenated(shareId) !in used
      && forall i, j :: 0 <= i < j < |blobNames| ==> blobNames[i] != blobNames[j]
    }

    predicate Cover(file: VaultFile)
      requires file.Valid()
    {
      |blobNames| == |nonces| == ChunkCount(|file.plaintext|, file.chunkSize)
    }
  }

  type Shares = map<string, ShareRecord>
  type Snapshots = map<string, FileShareSnapshot>
  type Cloud = map<Path, seq<byte>>
  type Versions = map<string, SharedVersion>

  /** History: what was shared under one `file_share_id`. */
  datatype SharedVersion = SharedVersion(
    fileId: string, plaintext: seq<byte>, key: Bytes32, shareFileId: Uuid, nonces: seq<Bytes24>,
    snapshot: FileShareSnapshot, blobs: seq<seq<byte>>)
  {
    /** One blob per name, and the names are distinct id texts. */
    ghost predicate Shaped() {
      && |blobs| == |snapshot.chunkUuids|
      && (forall i :: 0 <= i < |blobs| ==> IsIdText(snapshot.chunkUuids[i]))
      && (forall i, j :: 0 <= i < j < |blobs| ==> snapshot.chunkUuids[i] != snapshot.chunkUuids[j])
    }

    /** The content is the file, cut, padded and encrypted as the snapshot says. */
    ghost predicate Encrypts(w: World, f: string) {
      && snapshot.fileShareId == f
      && snapshot.chunkSize < U32_LIMIT && (snapshot.chunkSize > 0 || plaintext == [])
      && |blobs| == |nonces| == |snapshot.chunkUuids| == ChunkCount(|plaintext|, snapshot.chunkSize)
      && (forall i :: 0 <= i < |blobs| ==>
            blobs[i] == BlobAt(w.p, key, shareFileId, plaintext, snapshot.chunkSize, i, nonces[i]))
      && SnapshotOf(snapshot, shareFileId, plaintext, snapshot.chunkSize)
      && UnwrappedFileKey(w.p, snapshot.shareFileKeyWrapped, shareFileId, w.kek) == Some(key)
    }
  }

  /** History: one package that was sealed. */
  datatype Sent = Sent(
    fileShareId: string, recipient: Bytes32, ephemeral: Bytes32, packageId: string,
    endpoint: map<string, Json>, expiresAt: Option<int>, wire: seq<byte>)

  /** `shares`, `snapshots` and `cloud` are the stores; the other fields are history. `spoiled` holds
      the share ids for which a last-recipient revocation was attempted and returned an error. */
  datatype State = State(
    shares: Shares,
    snapshots: Snapshots,
    cloud: Cloud,
    used: set<string>,
    versions: Versions,
    sent: seq<Sent>,
    spoiled: set<string>)

  ghost predicate Active(shares: Shares, shareId: string) {
    shareId in shares && shares[shareId].revokedAt.None?
  }

  function NewSnapshot(w: World, req: Request, file: VaultFile, d: Draws): FileShareSnapshot {
    FileShareSnapshot(
      Hyphenated(d.fileShareId), Hyphenated(d.shareFileId),
      WrappedFileKey(w.p, d.shareKey, d.shareFileId, w.kek, d.wrapNonce),
      seq(|d.blobNames|, i requires 0 <= i < |d.blobNames| => Hyphenated(d.blobNames[i])),
      file.chunkSize, |file.plaintext|, file.name, req.now)
  }

  function NewBlobs(w: World, file: VaultFile, d: Draws): (blobs: seq<seq<byte>>)
    requires file.Valid() && d.Cover(file)
    ensures |blobs| == |d.blobNames|
  {
    seq(|d.nonces|, i requires 0 <= i < |d.nonces| =>
      BlobAt(w.p, d.shareKey, d.shareFileId, file.plaintext, file.chunkSize, i, d.nonces[i]))
  }

  function NewVersion(w: World, req: Request, file: VaultFile, d: Draws): SharedVersion
    requires file.Valid() && d.Cover(file)
  {
    SharedVersion(req.fileId, file.plaintext, d.shareKey, d.shareFileId, d.nonces,
                  NewSnapshot(w, req, file, d), NewBlobs(w, file, d))
  }

  /** What the cloud and the contact book answered: the recipient's key, and the endpoint credentials. */
  datatype Delivery = Delivery(recipient: Bytes32, endpoint: map<string, Json>, keyId: Option<string>,
                               folderId: Option<string>)

  function NewRow(req: Request, fileShareId: string, d: Draws, delivery: Delivery): ShareRecord {
    ShareRecord(Hyphenated(d.shareId), req.fileId, req.contactId, fileShareId, SharedPrefix(fileShareId),
                req.now, req.expiresAt, None, delivery.keyId, delivery.folderId, true, None)
  }

  function NewSent(req: Request, fileShareId: string, d: Draws, delivery: Delivery, wire: seq<byte>): Sent {
    Sent(fileShareId, delivery.recipient, d.ephemeral, Hyphenated(d.packageId), delivery.endpoint, req.expiresAt, wire)
  }

  function PayloadSent(w: World, v: SharedVersion, x: Sent): Payload {
    PayloadOf(w.codec, x.packageId, v.snapshot, v.key, w.ownPublicKey, Object(x.endpoint), x.expiresAt)
  }

  /** The wire bytes are the version's payload sealed for the recipient. */
  ghost predicate Genuine(w: World, v: SharedVersion, x: Sent) {
    Hpke.Sealed(w.p, x.recipient, x.ephemeral, w.codec.toJson(PayloadSent(w, v, x))) == Ok(x.wire)
  }

  /** The second half of `create_share`, once a snapshot exists: it stops before a package is made, or
      makes one and inserts the row. An insert can take effect and still be reported as failed. */
  datatype Tail =
    | Stopped(placeholders: Cloud)
    | Packaged(placeholders: Cloud, delivery: Delivery, wire: seq<byte>, stored: bool, acknowledged: bool)

  /** How far a call for a file without active shares got. */
  datatype Stage =
    | BuildFailed(leftover: Cloud)
    | SnapshotRefused(stored: bool)
    | SnapshotStored(tail: Tail)

  /** How far a last-recipient revocation got. */
  datatype Progress =
    | ListFailed
    | DeleteFailed(index: nat, applied: bool)
    | RowRefused(rowStored: bool)
    | SnapshotKept(removed: bool)
    | Finished

  datatype Event =
    | Idle
    | ShareFresh(req: Request, file: VaultFile, draws: Draws, stage: Stage)
    | ShareAgain(req: Request, fileShareId: string, draws: Draws, tail: Tail)
    | RevokeOne(shareId: string, now: int, stored: bool, acknowledged: bool)
    | RevokeLast(shareId: string, now: int, listing: seq<Path>, progress: Progress)

  /** Where the blobs of a version lie in the cloud. */
  function PathsOf(f: string, v: SharedVersion): (paths: seq<Path>)
    ensures |paths| == |v.snapshot.chunkUuids|
    ensures forall i :: 0 <= i < |paths| ==> paths[i] == BlobPath(f, v.snapshot.chunkUuids[i])
  {
    seq(|v.snapshot.chunkUuids|, i requires 0 <= i < |v.snapshot.chunkUuids| => BlobPath(f, v.snapshot.chunkUuids[i]))
  }

  lemma PathsDistinct(f: string, v: SharedVersion)
    requires v.Shaped()
    ensures Distinct(PathsOf(f, v))
  {
    forall i, j | 0 <= i < |v.blobs| && 0 <= j < |v.blobs| && i != j
      ensures PathsOf(f, v)[i] != PathsOf(f, v)[j]
    {
      if PathsOf(f, v)[i] == PathsOf(f, v)[j] {
        BlobPathInjective(f, v.snapshot.chunkUuids[i], v.snapshot.chunkUuids[j]);
      }
    }
  }

  /** The chunk blobs with indices in `indices`, at their cloud paths. */
  ghost function BlobsAt(f: string, v: SharedVersion, indices: set<nat>): Cloud
    requires v.Shaped() && Within(indices, |v.blobs|)
  {
    PathsDistinct(f, v);
    Picked(PathsOf(f, v), v.blobs, indices)
  }

  function Below(n: nat): (indices: set<nat>)
    ensures forall i: nat :: i in indices <==> i < n
  {
    if n == 0 then {} else Below(n - 1) + {n - 1}
  }

  ghost function AllBlobs(f: string, v: SharedVersion): Cloud
    requires v.Shaped()
  {
    BlobsAt(f, v, Below(|v.blobs|))
  }

  lemma NewVersionShaped(w: World, req: Request, file: VaultFile, d: Draws, used: set<string>)
    requires file.Valid() && d.Cover(file) && d.Fresh(used)
    ensures NewVersion(w, req, file, d).Shaped()
  {
    var v := NewVersion(w, req, file, d);
    forall i | 0 <= i < |d.blobNames|
      ensures IsIdText(v.snapshot.chunkUuids[i])
    {
      assert v.snapshot.chunkUuids[i] == Hyphenated(d.blobNames[i]);
    }
    forall i, j | 0 <= i < j < |d.blobNames|
      ensures v.snapshot.chunkUuids[i] != v.snapshot.chunkUuids[j]
    {
      if Hyphenated(d.blobNames[i]) == Hyphenated(d.blobNames[j]) {
        HyphenatedInjective(d.blobNames[i], d.blobNames[j]);
      }
    }
  }

  /** An answer of `list_blobs`: every path under the prefix, each once, in any order. */
  ghost predicate IsListing(listing: seq<Path>, cloud: Cloud, prefix: Path) {
    && (forall path :: path in listing <==> path in cloud && prefix < path)
    && (forall i, j :: 0 <= i < j < |listing| ==> listing[i] != listing[j])
  }

  function Deleted(listing: seq<Path>, progress: Progress): seq<Path> {
    match progress
    case ListFailed => []
    case DeleteFailed(index, applied) =>
      if index < |listing| then listing[..index] + (if applied then [listing[index]] else []) else listing
    case _ => listing
  }

  /** Some other active row shares the version of `shareId`. */
  ghost predicate HasSibling(shares: Shares, shareId: string)
    requires shareId in shares
  {
    exists other :: other != shareId && Active(shares, other) &&
      shares[other].fileShareId == shares[shareId].fileShareId
  }

  ghost predicate TailEnabled(f: string, tail: Tail) {
    && (forall path :: path in tail.placeholders ==> IsReceiptPath(f, path))
    && (tail.Packaged? && tail.acknowledged ==> tail.stored)
  }

  /** When a call can run and get as far as the event says. */
  ghost predicate Enabled(s: State, e: Event) {
    match e
    case Idle => true
    case ShareFresh(req, file, d, stage) =>
      var f := Hyphenated(d.fileShareId);
      && d.Fresh(s.used) && file.Valid() && d.Cover(file)
      && (forall id :: Active(s.shares, id) ==> s.shares[id].fileId != req.fileId)
      && (stage.BuildFailed? ==> forall path :: path in stage.leftover ==> SharedPrefix(f) <= path)
      && (stage.SnapshotStored? ==> TailEnabled(f, stage.tail))
    case ShareAgain(req, f, d, tail) =>
      && (exists id :: Active(s.shares, id) && s.shares[id].fileId == req.fileId && s.shares[id].fileShareId == f)
      && d.Fresh(s.used) && TailEnabled(f, tail)
    case RevokeOne(id, _, stored, acknowledged) =>
      Active(s.shares, id) && HasSibling(s.shares, id) && (acknowledged ==> stored)
    case RevokeLast(id, _, listing, progress) =>
      && Active(s.shares, id) && !HasSibling(s.shares, id)
      && (progress.ListFailed? || IsListing(listing, s.cloud, SharedPrefix(s.shares[id].fileShareId)))
      && (progress.DeleteFailed? ==> progress.index < |listing|)
  }

  ghost function AfterTail(s: State, req: Request, f: string, d: Draws, tail: Tail): State {
    var s := s.(cloud := s.cloud + tail.placeholders);
    match tail
    case Stopped(_) => s
    case Packaged(_, delivery, wire, stored, _) =>
      var row := NewRow(req, f, d, delivery);
      s.(sent := s.sent + [NewSent(req, f, d, delivery, wire)],
         shares := if stored then s.shares[row.shareId := row] else s.shares)
  }

  /** All blobs are uploaded under the drawn id. */
  ghost function AfterUpload(w: World, s: State, req: Request, file: VaultFile, d: Draws): State
    requires file.Valid() && d.Cover(file) && d.Fresh(s.used)
  {
    var f, v := Hyphenated(d.fileShareId), NewVersion(w, req, file, d);
    NewVersionShaped(w, req, file, d, s.used);
    s.(cloud := s.cloud + AllBlobs(f, v), versions := s.versions[f := v], used := s.used + {f, Hyphenated(d.shareId)})
  }

  ghost function AfterSnapshot(w: World, s: State, req: Request, file: VaultFile, d: Draws): State
    requires file.Valid() && d.Cover(file) && d.Fresh(s.used)
  {
    var snapshots := s.snapshots[Hyphenated(d.fileShareId) := NewSnapshot(w, req, file, d)];
    AfterUpload(w, s, req, file, d).(snapshots := snapshots)
  }

  /** The state after a call. */
  ghost function Apply(w: World, s: State, e: Event): State
    requires Enabled(s, e)
  {
    match e
    case Idle => s
    case ShareFresh(req, file, d, BuildFailed(leftover)) =>
      s.(used := s.used + {Hyphenated(d.fileShareId), Hyphenated(d.shareId)}, cloud := s.cloud + leftover)
    case ShareFresh(req, file, d, SnapshotRefused(stored)) =>
      if stored then AfterSnapshot(w, s, req, file, d) else AfterUpload(w, s, req, file, d)
    case ShareFresh(req, file, d, SnapshotStored(tail)) =>
      AfterTail(AfterSnapshot(w, s, req, file, d), req, Hyphenated(d.fileShareId), d, tail)
    case ShareAgain(req, f, d, tail) =>
      AfterTail(s.(used := s.used + {Hyphenated(d.shareId)}), req, f, d, tail)
    case RevokeOne(id, now, stored, _) =>
      if stored then s.(shares := Revoked(s.shares, id, now)) else s
    case RevokeLast(id, now, listing, progress) =>
      AfterRevokeLast(s, id, now, Deleted(listing, progress), progress)
  }

  ghost predicate RowDone(progress: Progress) {
    progress.Finished? || progress.SnapshotKept? || (progress.RowRefused? && progress.rowStored)
  }

  ghost predicate SnapshotDone(progress: Progress) {
    progress.Finished? || (progress.SnapshotKept? && progress.removed)
  }

  ghost function Revoked(shares: Shares, id: string, now: int): Shares
    requires id in shares
  {
    shares[id := shares[id].(revokedAt := Some(now))]
  }

  ghost function AfterRevokeLast(s: State, id: string, now: int, deleted: seq<Path>, progress: Progress): State
    requires id in s.shares
  {
    var f := s.shares[id].fileShareId;
    s.(cloud := s.cloud - (set path | path in deleted),
       shares := if RowDone(progress) then Revoked(s.shares, id, now) else s.shares,
       snapshots := if SnapshotDone(progress) then s.snapshots - {f} else s.snapshots,
       spoiled := if progress.Finished? then s.spoiled else s.spoiled + {f})
  }

  /** The package an event makes is a sealing of the version it is made for. */
  ghost predicate Seals(w: World, s: State, e: Event)
    requires Enabled(s, e)
  {
    match e
    case ShareFresh(req, file, d, SnapshotStored(Packaged(_, delivery, wire, _, _))) =>
      Genuine(w, NewVersion(w, req, file, d), NewSent(req, Hyphenated(d.fileShareId), d, delivery, wire))
    case ShareAgain(req, f, d, Packaged(_, delivery, wire, _, _)) =>
      f in s.versions && Genuine(w, s.versions[f], NewSent(req, f, d, delivery, wire))
    case _ => true
  }
}
