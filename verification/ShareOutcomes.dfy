/** What the runs of the share lifecycle mean to recipients and to the owner: which packages can be
    downloaded, and which versions leave their snapshot behind. */
module ShareOutcomes {
  import opened Aead
  import opened Bytes
  import opened CloudPaths
  import opened DataPath
  import opened Envelope
  import opened Fetch
  import Hpke
  import opened Packages
  import opened Recipient
  import opened ShareInvariant
  import opened ShareRuns
  import opened ShareService
  import opened ShareState
  import opened Store
  import opened Uuid
  import opened Wrappers

  // ---------------------------------------------------------------- chunk paths hold their blobs

  /** Whatever lies at a chunk path of the version is the version's blob. */
  ghost predicate Untampered(cloud: Cloud, f: string, v: SharedVersion)
    requires v.Shaped()
  {
    forall i :: 0 <= i < |v.blobs| ==>
      var path := BlobPath(f, v.snapshot.chunkUuids[i]);
      path in cloud ==> cloud[path] == v.blobs[i]
  }

  ghost predicate ChunksGenuine(s: State) {
    forall f :: f in s.versions ==> s.versions[f].Shaped() && Untampered(s.cloud, f, s.versions[f])
  }

  lemma PresentIsUntampered(cloud: Cloud, f: string, v: SharedVersion)
    requires v.Shaped() && BlobsPresent(cloud, f, v)
    ensures Untampered(cloud, f, v)
  {
  }

  lemma ReceiptsKeepUntampered(cloud: Cloud, extra: Cloud, f: string, v: SharedVersion)
    requires v.Shaped() && IsIdText(f) && Untampered(cloud, f, v)
    requires forall path :: path in extra ==> IsReceiptPath(f, path)
    ensures Untampered(cloud + extra, f, v)
  {
    ReceiptPaths(extra.Keys, f, v, f);
  }

  /** The version that a first share is about. */
  lemma FreshKeepsChunks(w: World, s: State, e: Event)
    requires StoresOk(s) && Enabled(s, e) && e.ShareFresh?
    ensures var t, f := Apply(w, s, e), Hyphenated(e.draws.fileShareId);
            f in t.versions ==> t.versions[f].Shaped() && Untampered(t.cloud, f, t.versions[f])
  {
    hide Hyphenated, NewVersion, AllBlobs;
    var f, v := Hyphenated(e.draws.fileShareId), NewVersion(w, e.req, e.file, e.draws);
    NoActiveRowKnows(s, f);
    UploadKeepsStores(w, s, e.req, e.file, e.draws);
    var cloud := AfterUpload(w, s, e.req, e.file, e.draws).cloud;
    PresentIsUntampered(cloud, f, v);
    if e.stage.SnapshotStored? {
      ReceiptsKeepUntampered(cloud, e.stage.tail.placeholders, f, v);
    }
  }

  lemma EventKeepsChunks(w: World, s: State, e: Event)
    requires StoresOk(s) && Enabled(s, e) && ChunksGenuine(s)
    ensures ChunksGenuine(Apply(w, s, e))
  {
    var t := Apply(w, s, e);
    forall f | f in t.versions
      ensures t.versions[f].Shaped() && Untampered(t.cloud, f, t.versions[f])
    {
      VersionKept(w, s, e, f);
    }
  }

  lemma VersionKept(w: World, s: State, e: Event, f: string)
    requires StoresOk(s) && Enabled(s, e) && ChunksGenuine(s) && f in Apply(w, s, e).versions
    ensures var t := Apply(w, s, e); t.versions[f].Shaped() && Untampered(t.cloud, f, t.versions[f])
  {
    hide StoresOk, Hyphenated, NewVersion, AllBlobs, Untampered, SharedPrefix, IsReceiptPath, IsListing, NewSnapshot,
         Revoked;
    var t := Apply(w, s, e);
    if e.ShareFresh? && f == Hyphenated(e.draws.fileShareId) {
      FreshKeepsChunks(w, s, e);
    } else {
      OldVersionKept(w, s, e, f);
    }
  }

  lemma VersionIdText(s: State, f: string)
    requires StoresOk(s) && f in s.versions
    ensures IsIdText(f)
  {
  }

  lemma OldVersionKept(w: World, s: State, e: Event, f: string)
    requires StoresOk(s) && Enabled(s, e) && ChunksGenuine(s) && f in s.versions
    requires e.ShareFresh? ==> f != Hyphenated(e.draws.fileShareId)
    ensures var t := Apply(w, s, e);
            f in t.versions && t.versions[f] == s.versions[f] && s.versions[f].Shaped() &&
            Untampered(t.cloud, f, s.versions[f])
  {
    hide StoresOk, Hyphenated, NewVersion, AllBlobs, SharedPrefix, IsReceiptPath, IsListing, NewSnapshot, Revoked;
    VersionIdText(s, f);
    var t, v := Apply(w, s, e), s.versions[f];
    if f != Touched(s, e) {
      forall i | 0 <= i < |v.blobs|
        ensures var path := BlobPath(f, v.snapshot.chunkUuids[i]); path in t.cloud ==> t.cloud[path] == v.blobs[i]
      {
        OtherSharesUntouched(w, s, e, f, v.snapshot.chunkUuids[i]);
      }
    } else if e.ShareAgain? {
      ReceiptsKeepUntampered(s.cloud, e.tail.placeholders, f, v);
    }
  }

  /** In every reachable state a chunk path that is present holds the blob of its version. */
  lemma {:induction false} RunKeepsChunks(w: World, s: State, events: seq<Event>)
    requires Untouched(s) && ValidRun(w, s, events)
    ensures ChunksGenuine(After(w, s, events))
    decreases |events|
  {
    if events != [] {
      var before, last := events[..|events| - 1], events[|events| - 1];
      RunKeepsChunks(w, s, before);
      UntouchedInv(w, s);
      RunKeepsInv(w, s, before);
      EventKeepsChunks(w, After(w, s, before), last);
    }
  }

  lemma ReachableChunks(w: World, t: State)
    requires Reachable(w, t)
    ensures ChunksGenuine(t)
  {
    var s, events :| Untouched(s) && ValidRun(w, s, events) && After(w, s, events) == t;
    RunKeepsChunks(w, s, events);
  }

  // ---------------------------------------------------------------- packages

  /** Package `k` was made for the holder of this secret. */
  ghost predicate MadeFor(w: World, t: State, k: nat, secret: Bytes32) {
    k < |t.sent| && t.sent[k].recipient == w.p.publicKey(secret) && Hpke.DhAgrees(w.p, t.sent[k].ephemeral, secret)
  }

  /** What a package opens to: the payload of its version. */
  lemma PackageOpens(w: World, t: State, k: nat, secret: Bytes32)
    requires Inv(w, t) && w.codec.Inverse() && MadeFor(w, t, k, secret)
    ensures var x := t.sent[k];
            x.fileShareId in t.versions &&
            var json := Hpke.Opened(w.p, secret, x.wire);
            json.Ok? && w.codec.fromJson(json.value) == Some(PayloadSent(w, t.versions[x.fileShareId], x))
  {
    var x := t.sent[k];
    assert Genuine(w, t.versions[x.fileShareId], x);
    Hpke.OpenUndoesSeal(w.p, secret, x.ephemeral, w.codec.toJson(PayloadSent(w, t.versions[x.fileShareId], x)));
  }

  /** Any two packages made for one `file_share_id`, however far apart in a run and for whichever recipients,
      open to payloads with the same file id, key, chunk list, chunk size, file size and name. */
  lemma PackagesAgree(w: World, t: State, i: nat, j: nat, secret: Bytes32, secret': Bytes32)
    requires Reachable(w, t) && w.codec.Inverse() && MadeFor(w, t, i, secret) && MadeFor(w, t, j, secret')
    requires t.sent[i].fileShareId == t.sent[j].fileShareId
    ensures var json, json' := Hpke.Opened(w.p, secret, t.sent[i].wire), Hpke.Opened(w.p, secret', t.sent[j].wire);
            json.Ok? && json'.Ok? &&
            var a, b := w.codec.fromJson(json.value), w.codec.fromJson(json'.value);
            && a.Some? && b.Some?
            && a.value.fileId == b.value.fileId && a.value.fileKey == b.value.fileKey
            && a.value.fileName == b.value.fileName && a.value.fileSize == b.value.fileSize
            && a.value.chunkUuids == b.value.chunkUuids && a.value.chunkCount == b.value.chunkCount
            && a.value.chunkSize == b.value.chunkSize
  {
    hide Hpke.Opened, Inv;
    ReachableInv(w, t);
    PackageOpens(w, t, i, secret);
    PackageOpens(w, t, j, secret');
  }

  // ---------------------------------------------------------------- downloads

  ghost predicate AllThere(cloud: Cloud, f: string, v: SharedVersion) {
    forall i :: 0 <= i < |v.snapshot.chunkUuids| ==> BlobPath(f, v.snapshot.chunkUuids[i]) in cloud
  }

  /** The store that the recipient's transport reads shows the chunks of the share as they are in the cloud. */
  ghost predicate Serves(store: map<Path, seq<byte>>, row: ReceivedShare, hasBinary: bool, cloud: Cloud, f: string) {
    forall i :: 0 <= i < |row.chunkUuids| ==>
      var remote, path := RemotePath(row, hasBinary, row.chunkUuids[i]), BlobPath(f, row.chunkUuids[i]);
      (remote in store <==> path in cloud) && (remote in store && path in cloud ==> store[remote] == cloud[path])
  }

  /** One recipient's import and, later, one download through a working transport, with its answer. */
  datatype Download = Download(
    kek: Bytes32, nonce: Bytes24, importedAt: int, shareId: string, attempt: Attempt, store: map<Path, seq<byte>>,
    files: Files, stuck: set<string>, after: Files, answer: Result<seq<byte>>)
  {
    ghost function Row(w: World, x: Sent, secret: Bytes32): Result<ReceivedShare> {
      ImportedRow(w.p, w.codec, x.wire, secret, kek, nonce, importedAt)
    }

    /** Package `x` was imported, the transport serves the share, and the call gave this answer. */
    ghost predicate Happens(w: World, x: Sent, secret: Bytes32, cloud: Cloud) {
      var row, hasBinary := Row(w, x, secret), attempt.machine.hasBinary;
      && row.Ok? && Serves(store, row.value, hasBinary, cloud, x.fileShareId)
      && DownloadOutcome(w.p, shareId, row, kek, attempt, HonestTransfers(store, row.value, hasBinary), files, stuck,
                         after, answer)
    }
  }

  /** Nothing at the recipient stands in the way: the share has not expired, a transport can be had for it, its
      blobs can be addressed, and no local fault occurs. */
  predicate Unhindered(row: ReceivedShare, a: Attempt) {
    && !Expired(row, a.now) && Ready(row, a.machine) && Addressable(row, a.machine.hasBinary)
    && !a.secondReadFails && a.machine.stagingReady && !a.destinationFails
  }

  /** What the recipient of a non-empty file is answered. */
  ghost function DownloadAnswer(cloud: Cloud, f: string, v: SharedVersion, row: ReceivedShare, a: Attempt)
    : (r: Result<seq<byte>>)
    ensures r == Ok(v.plaintext) <==> Unhindered(row, a) && AllThere(cloud, f, v)
  {
    if Expired(row, a.now) then Err(InvalidInput)
    else if a.secondReadFails then Err(Backend)
    else if !a.machine.stagingReady || !Ready(row, a.machine) then Err(EarlyError(Ok(row), a.machine))
    else if !Addressable(row, a.machine.hasBinary) then Err(InvalidSharePackage)
    else if !AllThere(cloud, f, v) then Err(CloudOperation)
    else if a.destinationFails then Err(Internal)
    else Ok(v.plaintext)
  }

  /** The row a package becomes at its recipient. */
  lemma PackageImports(w: World, t: State, k: nat, secret: Bytes32, kek: Bytes32, nonce: Bytes24, now: int)
    requires Inv(w, t) && w.codec.Inverse() && MadeFor(w, t, k, secret)
    ensures t.sent[k].fileShareId in t.versions
    ensures var v, row := t.versions[t.sent[k].fileShareId],
                          ImportedRow(w.p, w.codec, t.sent[k].wire, secret, kek, nonce, now);
            && (row.Ok? <==> v.snapshot.fileName != "" && |v.snapshot.chunkUuids| < U32_LIMIT)
            && (row.Ok? ==>
                && RowDescribes(w.p, row.value, v.snapshot, v.shareFileId, v.key, kek)
                && row.value.expiresAt == t.sent[k].expiresAt
                && row.value.cloudEndpoint == Object(EndpointStored(t.sent[k].endpoint, v.snapshot.fileSize)))
  {
    hide Hpke.Opened, PayloadRow, RowDescribes, UnwrappedFileKey, PayloadOf;
    PackageOpens(w, t, k, secret);
    var x := t.sent[k];
    var v := t.versions[x.fileShareId];
    assert v.Encrypts(w, x.fileShareId);
    PayloadRowDescribes(w.p, w.codec, x.packageId, v.snapshot, v.shareFileId, v.key, w.ownPublicKey, x.endpoint,
                        x.expiresAt, kek, nonce, now);
  }

  /** In every reachable state a package imports at its recipient if and only if the file has a name and its chunk
      count fits. */
  lemma ImportsIff(w: World, t: State, k: nat, secret: Bytes32, kek: Bytes32, nonce: Bytes24, now: int)
    requires Reachable(w, t) && w.codec.Inverse() && MadeFor(w, t, k, secret)
    ensures var f := t.sent[k].fileShareId;
            f in t.versions &&
            (ImportedRow(w.p, w.codec, t.sent[k].wire, secret, kek, nonce, now).Ok? <==>
              t.versions[f].snapshot.fileName != "" && |t.versions[f].snapshot.chunkUuids| < U32_LIMIT)
  {
    hide Inv, ImportedRow;
    ReachableInv(w, t);
    PackageImports(w, t, k, secret, kek, nonce, now);
  }

  lemma RowReadable(w: World, f: string, v: SharedVersion, row: ReceivedShare, kek: Bytes32)
    requires v.Shaped() && v.Encrypts(w, f)
    requires RowDescribes(w.p, row, v.snapshot, v.shareFileId, v.key, kek)
    ensures row.chunkUuids == v.snapshot.chunkUuids && row.chunkUuids != [] && NamedByUuids(row)
    ensures KeyReadable(w.p, row, kek)
  {
    ParseUndoesHyphenated(v.shareFileId);
  }

  /** Found blobs of a share that is all there are its version's, and decrypt to the file. */
  lemma ServedFileDecrypts(w: World, cloud: Cloud, f: string, v: SharedVersion, row: ReceivedShare, kek: Bytes32,
                           store: map<Path, seq<byte>>, hasBinary: bool, staged: map<string, seq<byte>>)
    requires v.Shaped() && v.Encrypts(w, f) && Untampered(cloud, f, v) && AllThere(cloud, f, v) && v.plaintext != []
    requires RowDescribes(w.p, row, v.snapshot, v.shareFileId, v.key, kek) && Serves(store, row, hasBinary, cloud, f)
    requires Found(store, row, hasBinary)
    requires forall i :: 0 <= i < |row.chunkUuids| ==>
               var name := row.chunkUuids[i];
               name in staged && staged[name] == store[RemotePath(row, hasBinary, name)]
    ensures Downloaded(w.p, row, kek, staged) == Ok(v.plaintext)
  {
    hide Downloaded, UnwrappedFileKey, RemotePath, BlobPath, BlobAt, ChunkCount;
    var names := v.snapshot.chunkUuids;
    forall i | 0 <= i < |names|
      ensures names[i] in staged && staged[names[i]] == v.blobs[i]
    {
      assert BlobPath(f, names[i]) in cloud && RemotePath(row, hasBinary, row.chunkUuids[i]) in store;
    }
    DownloadFromRow(w.p, row, v.snapshot, v.shareFileId, v.key, v.plaintext, v.snapshot.chunkSize, v.nonces, kek,
                    staged);
  }

  lemma FoundIffAllThere(cloud: Cloud, f: string, v: SharedVersion, row: ReceivedShare, store: map<Path, seq<byte>>,
                         hasBinary: bool)
    requires row.chunkUuids == v.snapshot.chunkUuids && Serves(store, row, hasBinary, cloud, f)
    ensures Found(store, row, hasBinary) <==> AllThere(cloud, f, v)
  {
    hide RemotePath, BlobPath;
  }

  /** The end-to-end promise, exactly, in every reachable state and for every package ever made of a non-empty file.
      The recipient gets the file if and only if nothing at the recipient stands in the way and every chunk path of
      the version is in the cloud; otherwise the answer says which of them fails first. */
  lemma DownloadIff(w: World, t: State, k: nat, secret: Bytes32, x: Download)
    requires Reachable(w, t) && w.codec.Inverse() && MadeFor(w, t, k, secret)
    requires x.Happens(w, t.sent[k], secret, t.cloud)
    ensures var f, row := t.sent[k].fileShareId, x.Row(w, t.sent[k], secret).value;
            f in t.versions &&
            (t.versions[f].plaintext != [] ==> x.answer == DownloadAnswer(t.cloud, f, t.versions[f], row, x.attempt))
  {
    hide ImportedRow, Downloaded, DownloadOutcome, RowDescribes, Untampered, AllThere, Reachable, Serves, Found,
         NamedByUuids, KeyReadable, Ready, Addressable, Expired, EarlyError, UnwrappedFileKey;
    ReachableInv(w, t);
    ReachableChunks(w, t);
    PackageImports(w, t, k, secret, x.kek, x.nonce, x.importedAt);
    var f, a := t.sent[k].fileShareId, x.attempt;
    var v, row := t.versions[f], x.Row(w, t.sent[k], secret).value;
    assert v.Encrypts(w, f) && v.Shaped();
    if v.plaintext != [] {
      RowReadable(w, f, v, row, x.kek);
      FoundIffAllThere(t.cloud, f, v, row, x.store, a.machine.hasBinary);
      var staged := HonestDownload(w.p, x.store, x.shareId, row, x.kek, a, x.files, x.stuck, x.after, x.answer);
      if Obstacle(x.store, row, a).None? {
        ServedFileDecrypts(w, t.cloud, f, v, row, x.kek, x.store, a.machine.hasBinary, staged);
      }
    }
  }

  /** So an unhindered recipient of a share that still has an active row gets the file as it was shared, unless a
      last-recipient revocation of that share failed. */
  lemma RecipientsCanDownload(w: World, t: State, k: nat, id: string, secret: Bytes32, x: Download)
    requires Reachable(w, t) && w.codec.Inverse() && MadeFor(w, t, k, secret)
    requires x.Happens(w, t.sent[k], secret, t.cloud) && Unhindered(x.Row(w, t.sent[k], secret).value, x.attempt)
    requires Active(t.shares, id) && t.shares[id].fileShareId == t.sent[k].fileShareId
    requires t.sent[k].fileShareId !in t.spoiled
    ensures var f := t.sent[k].fileShareId;
            f in t.versions && (t.versions[f].plaintext != [] ==> x.answer == Ok(t.versions[f].plaintext))
  {
    hide ImportedRow, DownloadOutcome, Reachable, Serves, Unhindered;
    DownloadIff(w, t, k, secret, x);
    ReachableInv(w, t);
    var f := t.sent[k].fileShareId;
    assert BlobsPresent(t.cloud, f, t.versions[f]);
  }

  /** A share whose transport gave no scoped credentials is never downloaded, although creating it succeeded and all
      of its blobs are there: its endpoint names no provider, and the fetch refuses that. */
  lemma UnscopedNeverDownloads(w: World, t: State, k: nat, secret: Bytes32, x: Download)
    requires Reachable(w, t) && w.codec.Inverse() && MadeFor(w, t, k, secret)
    requires x.Happens(w, t.sent[k], secret, t.cloud)
    requires t.sent[k].endpoint == DeliveryOf(Unscoped, t.sent[k].fileShareId, t.sent[k].recipient).endpoint
    ensures var f := t.sent[k].fileShareId;
            f in t.versions && (t.versions[f].plaintext != [] ==> x.answer.Err?)
    ensures var f, row, a := t.sent[k].fileShareId, x.Row(w, t.sent[k], secret).value, x.attempt;
            t.versions[f].plaintext != [] && !Expired(row, a.now) && !a.secondReadFails ==>
              x.answer == Err(CloudOperation)
  {
    hide Inv, ImportedRow, DownloadOutcome, Reachable, Serves, RowDescribes, AllThere, DeliveryOf, SharedPrefix;
    DownloadIff(w, t, k, secret, x);
    ReachableInv(w, t);
    PackageImports(w, t, k, secret, x.kek, x.nonce, x.importedAt);
    NoProvider(t.sent[k], t.versions[t.sent[k].fileShareId].snapshot.fileSize, x.Row(w, t.sent[k], secret).value);
  }

  lemma NoProvider(x: Sent, fileSize: nat, row: ReceivedShare)
    requires x.endpoint == DeliveryOf(Unscoped, x.fileShareId, x.recipient).endpoint
    requires row.cloudEndpoint == Object(EndpointStored(x.endpoint, fileSize))
    ensures Provider(row) == None
  {
  }

  // ---------------------------------------------------------------- Backblaze B2

  /** The bucket holds the vault's cloud behind the path prefix of its destination, and nothing else. */
  ghost predicate BucketHolds(objects: map<string, seq<byte>>, destination: string, cloud: Cloud) {
    && (forall path :: path in cloud ==>
          SenderKey(destination, path) in objects && objects[SenderKey(destination, path)] == cloud[path])
    && (forall key :: key in objects ==> exists path :: path in cloud && key == SenderKey(destination, path))
  }

  /** A transport with scoped B2 credentials reads the bucket at the endpoint's path prefix. */
  ghost predicate ReadsBucket(store: map<Path, seq<byte>>, objects: map<string, seq<byte>>, pathPrefix: string) {
    forall remote ::
      (remote in store <==> RootedKey(pathPrefix, remote) in objects) &&
      (remote in store && RootedKey(pathPrefix, remote) in objects ==>
        store[remote] == objects[RootedKey(pathPrefix, remote)])
  }

  /** With the vault at the root of its bucket such a transport serves the share. */
  lemma RootVaultServes(store: map<Path, seq<byte>>, objects: map<string, seq<byte>>, row: ReceivedShare, cloud: Cloud,
                        f: string)
    requires IsIdText(f) && HasScopedTransport(row, true)
    requires BucketHolds(objects, "", cloud) && ReadsBucket(store, objects, SharedPrefix(f))
    ensures Serves(store, row, true, cloud, f)
  {
    hide RemotePath, SharedPrefix, BlobPath, RootedKey, HasScopedTransport;
    forall i | 0 <= i < |row.chunkUuids|
      ensures RootedKey(SharedPrefix(f), RemotePath(row, true, row.chunkUuids[i])) ==
              SenderKey("", BlobPath(f, row.chunkUuids[i]))
    {
      B2KeysAgreeIff("", f, row, true, row.chunkUuids[i]);
    }
  }

  /** And so does the recipient's own transport if it reads the sender's cloud. */
  lemma OwnCloudServes(row: ReceivedShare, hasBinary: bool, cloud: Cloud, f: string)
    requires !HasScopedTransport(row, hasBinary) && PathPrefix(row) == SharedPrefix(f)
    ensures Serves(cloud, row, hasBinary, cloud, f)
  {
    hide SharedPrefix, HasScopedTransport;
    forall i | 0 <= i < |row.chunkUuids|
      ensures RemotePath(row, hasBinary, row.chunkUuids[i]) == BlobPath(f, row.chunkUuids[i])
    {
      ScopedRemote(row, hasBinary, row.chunkUuids[i]);
    }
  }

  /** With a path prefix it does not: the blobs are all there, nothing stands in the recipient's way, and every
      download fails, because it asks for keys without the prefix. */
  lemma PrefixedVaultUnreachable(w: World, t: State, k: nat, secret: Bytes32, x: Download,
                                 objects: map<string, seq<byte>>, destination: string)
    requires Reachable(w, t) && w.codec.Inverse() && MadeFor(w, t, k, secret)
    requires destination != "" && BucketHolds(objects, destination, t.cloud)
    requires forall path :: path in t.cloud ==> Ordinary(path)
    requires x.attempt.machine.hasBinary && x.Row(w, t.sent[k], secret).Ok?
    requires var row := x.Row(w, t.sent[k], secret).value;
             && HasScopedTransport(row, true) && ReadsBucket(x.store, objects, SharedPrefix(t.sent[k].fileShareId))
             && Unhindered(row, x.attempt)
             && DownloadOutcome(w.p, x.shareId, Ok(row), x.kek, x.attempt, HonestTransfers(x.store, row, true), x.files,
                                x.stuck, x.after, x.answer)
    ensures x.answer == Err(CloudOperation)
  {
    hide Inv, ImportedRow, DownloadOutcome, RowDescribes, Reachable, NamedByUuids, KeyReadable, UnwrappedFileKey,
         SharedPrefix, SenderKey, RootedKey, ReadsBucket, HasScopedTransport, BucketHolds, Unhindered, Ordinary, Found;
    ReachableInv(w, t);
    PackageImports(w, t, k, secret, x.kek, x.nonce, x.importedAt);
    var f := t.sent[k].fileShareId;
    var v, row := t.versions[f], x.Row(w, t.sent[k], secret).value;
    VersionOfSent(w, t, f);
    RowReadable(w, f, v, row, x.kek);
    UuidHasNoSlash(row, 0);
    NoSuchKey(objects, destination, t.cloud, f, row.chunkUuids[0]);
    NotFoundInBucket(x.store, objects, row, SharedPrefix(f));
    NotFoundFails(w.p, row, x);
  }

  lemma NotFoundInBucket(store: map<Path, seq<byte>>, objects: map<string, seq<byte>>, row: ReceivedShare,
                         prefix: string)
    requires row.chunkUuids != [] && HasScopedTransport(row, true) && ReadsBucket(store, objects, prefix)
    requires RootedKey(prefix, row.chunkUuids[0] + ".blob") !in objects
    ensures !Found(store, row, true)
  {
    hide RemotePath, RootedKey, HasScopedTransport;
    ScopedRemote(row, true, row.chunkUuids[0]);
  }

  lemma NotFoundFails(p: Primitives, row: ReceivedShare, x: Download)
    requires NamedByUuids(row) && row.chunkUuids != [] && KeyReadable(p, row, x.kek) && Unhindered(row, x.attempt)
    requires x.attempt.machine.hasBinary && !Found(x.store, row, true)
    requires DownloadOutcome(p, x.shareId, Ok(row), x.kek, x.attempt, HonestTransfers(x.store, row, true), x.files,
                             x.stuck, x.after, x.answer)
    ensures x.answer == Err(CloudOperation)
  {
    hide NamedByUuids, KeyReadable, DownloadOutcome, Found, Ready, Addressable, Expired;
    var _ := HonestDownload(p, x.store, x.shareId, row, x.kek, x.attempt, x.files, x.stuck, x.after, x.answer);
  }

  lemma VersionOfSent(w: World, t: State, f: string)
    requires Inv(w, t) && f in t.versions
    ensures t.versions[f].Shaped() && t.versions[f].Encrypts(w, f) && IsIdText(f)
  {
  }

  lemma UuidHasNoSlash(row: ReceivedShare, i: nat)
    requires NamedByUuids(row) && i < |row.chunkUuids|
    ensures '/' !in row.chunkUuids[i]
  {
    hide ParseStr;
    ParsedHasNoSlash(row.chunkUuids[i]);
  }

  lemma NoSuchKey(objects: map<string, seq<byte>>, destination: string, cloud: Cloud, f: string, name: string)
    requires destination != "" && BucketHolds(objects, destination, cloud) && IsIdText(f) && '/' !in name
    requires forall path :: path in cloud ==> Ordinary(path)
    ensures RootedKey(SharedPrefix(f), name + ".blob") !in objects
  {
    hide SharedPrefix, SenderKey, RootedKey, Ordinary;
    if RootedKey(SharedPrefix(f), name + ".blob") in objects {
      var path :| path in cloud && RootedKey(SharedPrefix(f), name + ".blob") == SenderKey(destination, path);
      KeyElsewhere(destination, path, f, name);
    }
  }

  /** The credentials that the sender's transport answered arrive in the recipient's row as they were. */
  lemma CredentialsArrive(w: World, t: State, k: nat, secret: Bytes32, kek: Bytes32, nonce: Bytes24, now: int,
                          given: map<string, Json>)
    requires Reachable(w, t) && w.codec.Inverse() && MadeFor(w, t, k, secret)
    requires t.sent[k].endpoint ==
             DeliveryOf(Credentials.Scoped(given), t.sent[k].fileShareId, t.sent[k].recipient).endpoint
    ensures var row := ImportedRow(w.p, w.codec, t.sent[k].wire, secret, kek, nonce, now);
            row.Ok? ==>
              && Carries(row.value, given["receipt_requested" := Bool(true)])
              && (forall name :: name != "_file_size" && name != "receipt_requested" ==>
                    GetText(row.value.cloudEndpoint, name) == TextField(given, name))
  {
    hide Inv, ImportedRow, RowDescribes, Reachable, Hpke.Opened;
    ReachableInv(w, t);
    PackageImports(w, t, k, secret, kek, nonce, now);
  }

  /** The whole way over Backblaze B2: the vault lies at the root of its bucket, its transport answered credentials for
      the share, and the recipient has the rclone binary and no local fault. Then the recipient of a share that has not
      expired and whose blobs are all there gets the file. */
  lemma B2ShareDownloads(w: World, t: State, k: nat, secret: Bytes32, x: Download, objects: map<string, seq<byte>>,
                         bucket: string, url: string, keyId: string, appKey: string)
    requires Reachable(w, t) && w.codec.Inverse() && MadeFor(w, t, k, secret)
    requires var f := t.sent[k].fileShareId;
             && t.sent[k].endpoint ==
                DeliveryOf(Credentials.Scoped(B2Answer(bucket, url, keyId, appKey, SharedPrefix(f))), f,
                           t.sent[k].recipient).endpoint
             && BucketHolds(objects, "", t.cloud) && ReadsBucket(x.store, objects, SharedPrefix(f))
             && f in t.versions && AllThere(t.cloud, f, t.versions[f]) && t.versions[f].plaintext != []
    requires var m := x.attempt.machine;
             && m.hasBinary && m.stagingReady && m.write.Written?
             && !x.attempt.secondReadFails && !x.attempt.destinationFails
    requires t.sent[k].expiresAt.Some? ==> x.attempt.now <= t.sent[k].expiresAt.value
    requires x.Row(w, t.sent[k], secret).Ok?
    requires DownloadOutcome(w.p, x.shareId, x.Row(w, t.sent[k], secret), x.kek, x.attempt,
                             HonestTransfers(x.store, x.Row(w, t.sent[k], secret).value, true),
                             x.files, x.stuck, x.after, x.answer)
    ensures x.answer == Ok(t.versions[t.sent[k].fileShareId].plaintext)
  {
    hide Inv, ImportedRow, DownloadOutcome, RowDescribes, Reachable, B2Answer, DeliveryOf, SharedPrefix, Serves,
         AllThere, BucketHolds, ReadsBucket, Ready, Addressable, HasScopedTransport, Carries;
    var f, row := t.sent[k].fileShareId, x.Row(w, t.sent[k], secret).value;
    ReachableInv(w, t);
    PackageImports(w, t, k, secret, x.kek, x.nonce, x.importedAt);
    VersionOfSent(w, t, f);
    var answer := B2Answer(bucket, url, keyId, appKey, SharedPrefix(f));
    CredentialsArrive(w, t, k, secret, x.kek, x.nonce, x.importedAt, answer);
    ReceiptAlreadyRequested(bucket, url, keyId, appKey, SharedPrefix(f));
    B2AnswerSuffices(row, x.attempt.machine, bucket, url, keyId, appKey, SharedPrefix(f));
    RootVaultServes(x.store, objects, row, t.cloud, f);
    DownloadIff(w, t, k, secret, x);
  }

  lemma ReceiptAlreadyRequested(bucket: string, url: string, keyId: string, appKey: string, prefix: string)
    ensures var answer := B2Answer(bucket, url, keyId, appKey, prefix);
            answer["receipt_requested" := Bool(true)] == answer
  {
  }

  /** A share is refused as expired exactly from the second after its expiry on. */
  lemma ExpiryDecides(w: World, t: State, k: nat, secret: Bytes32, x: Download)
    requires Reachable(w, t) && w.codec.Inverse() && MadeFor(w, t, k, secret)
    requires x.Happens(w, t.sent[k], secret, t.cloud)
    ensures var f, expiry := t.sent[k].fileShareId, t.sent[k].expiresAt;
            f in t.versions &&
            (t.versions[f].plaintext != [] ==>
              (x.answer == Err(InvalidInput) <==> expiry.Some? && expiry.value < x.attempt.now))
  {
    hide Inv, ImportedRow, DownloadOutcome, Reachable, Serves, RowDescribes, AllThere, Ready, Addressable;
    DownloadIff(w, t, k, secret, x);
    ReachableInv(w, t);
    PackageImports(w, t, k, secret, x.kek, x.nonce, x.importedAt);
  }

  // ---------------------------------------------------------------- the file that was shared

  /** What a version is, in terms of the call that made it. */
  ghost predicate MadeFrom(v: SharedVersion, e: Event) {
    && e.ShareFresh? && v.snapshot.fileShareId == Hyphenated(e.draws.fileShareId)
    && v.plaintext == e.file.plaintext && v.snapshot.fileName == e.file.name && v.fileId == e.req.fileId
    && v.snapshot.chunkSize == e.file.chunkSize && v.snapshot.fileSize == |e.file.plaintext|
    && v.snapshot.createdAt == e.req.now && v.key == e.draws.shareKey && v.nonces == e.draws.nonces
  }

  lemma AddedVersionMadeFrom(w: World, s: State, e: Event, f: string)
    requires Enabled(s, e) && f in Apply(w, s, e).versions && f !in s.versions
    ensures MadeFrom(Apply(w, s, e).versions[f], e)
  {
    AddedVersion(w, s, e, f);
  }

  /** In every run each version is what the one call that made it was given: its file's content, name and chunk size,
      under the key and nonces drawn in that call. */
  lemma {:induction false} VersionOrigin(w: World, s: State, events: seq<Event>, f: string) returns (j: nat)
    requires Untouched(s) && ValidRun(w, s, events) && f in After(w, s, events).versions
    ensures j < |events| && MadeFrom(After(w, s, events).versions[f], events[j])
    decreases |events|
  {
    hide Inv, Enabled, Apply, Seals, MadeFrom;
    var before, e := events[..|events| - 1], events[|events| - 1];
    UntouchedInv(w, s);
    RunKeepsInv(w, s, before);
    InvStores(w, After(w, s, before));
    if f in After(w, s, before).versions {
      OldVersionStays(w, After(w, s, before), e, f);
      j := VersionOrigin(w, s, before, f);
    } else {
      AddedVersionMadeFrom(w, After(w, s, before), e, f);
      j := |events| - 1;
    }
  }

  /** So what an unhindered recipient gets is the file of the vault that was passed to the call that first shared it,
      under its name. */
  lemma VaultFileArrives(w: World, s: State, events: seq<Event>, k: nat, secret: Bytes32, x: Download) returns (j: nat)
    requires Untouched(s) && ValidRun(w, s, events) && w.codec.Inverse() && MadeFor(w, After(w, s, events), k, secret)
    requires var t := After(w, s, events);
             && x.Happens(w, t.sent[k], secret, t.cloud) && Unhindered(x.Row(w, t.sent[k], secret).value, x.attempt)
             && t.sent[k].fileShareId in t.versions
             && AllThere(t.cloud, t.sent[k].fileShareId, t.versions[t.sent[k].fileShareId])
    ensures j < |events| && events[j].ShareFresh?
    ensures var x', file := After(w, s, events).sent[k], events[j].file;
            && x'.fileShareId == Hyphenated(events[j].draws.fileShareId)
            && x.Row(w, x', secret).value.fileName == file.name
            && (file.plaintext != [] ==> x.answer == Ok(file.plaintext))
  {
    hide Inv, ImportedRow, DownloadOutcome, Serves, AllThere, Unhindered, After, ValidRun, Untouched;
    var t := After(w, s, events);
    assert Reachable(w, t);
    DownloadIff(w, t, k, secret, x);
    ReachableInv(w, t);
    PackageImports(w, t, k, secret, x.kek, x.nonce, x.importedAt);
    j := VersionOrigin(w, s, events, t.sent[k].fileShareId);
    VersionOfSent(w, t, t.sent[k].fileShareId);
  }

  // ---------------------------------------------------------------- when blobs are lost

  /** The event deletes the blob at this path. */
  ghost predicate Deletes(e: Event, path: Path) {
    e.RevokeLast? && path in Deleted(e.listing, e.progress)
  }

  lemma DeletedWasThere(s: State, e: Event, path: Path)
    requires Enabled(s, e) && Deletes(e, path)
    ensures path in s.cloud && SharedPrefix(s.shares[e.shareId].fileShareId) < path
  {
    DeletedUnderPrefix(e.listing, s.cloud, SharedPrefix(s.shares[e.shareId].fileShareId), e.progress);
    assert path in e.listing;
  }

  lemma NotDeletedNow(w: World, s: State, e: Event, f: string, path: Path)
    requires Inv(w, s) && Enabled(s, e) && f !in s.used && IsIdText(f) && SharedPrefix(f) <= path
    ensures !Deletes(e, path)
  {
    hide SharedPrefix, Hyphenated, NewVersion, AllBlobs, Deleted;
    assert PathsOk(s.cloud, s.used);
    if Deletes(e, path) {
      DeletedWasThere(s, e, path);
    }
  }

  /** No event has deleted anything under the prefix of an id that is still to be drawn. */
  lemma {:induction false} NothingDeletedYet(w: World, s: State, events: seq<Event>, f: string, path: Path)
    requires Untouched(s) && ValidRun(w, s, events) && f !in After(w, s, events).used
    requires IsIdText(f) && SharedPrefix(f) <= path
    ensures forall j :: 0 <= j < |events| ==> !Deletes(events[j], path)
    decreases |events|
  {
    hide SharedPrefix, Inv, Enabled, Apply, Seals, Deletes;
    if events != [] {
      var before, e := events[..|events| - 1], events[|events| - 1];
      UsedGrows(w, After(w, s, before), e);
      NothingDeletedYet(w, s, before, f, path);
      UntouchedInv(w, s);
      RunKeepsInv(w, s, before);
      NotDeletedNow(w, After(w, s, before), e, f, path);
      assert forall j :: 0 <= j < |before| ==> events[j] == before[j];
    }
  }

  lemma UsedGrows(w: World, s: State, e: Event)
    requires Enabled(s, e)
    ensures s.used <= Apply(w, s, e).used
  {
    hide SharedPrefix, Hyphenated, NewVersion, AllBlobs;
  }

  /** One event and one chunk path of a version that exists after it. */
  lemma ChunkStep(w: World, s: State, e: Event, f: string, i: nat)
    requires Inv(w, s) && Enabled(s, e) && f in Apply(w, s, e).versions
    requires i < |Apply(w, s, e).versions[f].snapshot.chunkUuids|
    ensures var t := Apply(w, s, e);
            var path := BlobPath(f, t.versions[f].snapshot.chunkUuids[i]);
            && (f !in s.versions ==> f !in s.used && IsIdText(f) && path in t.cloud)
            && (f in s.versions ==>
                t.versions[f] == s.versions[f] && (path in t.cloud <==> path in s.cloud && !Deletes(e, path)))
  {
    hide Inv, StoresOk, Enabled, Apply, Deletes, BlobPath;
    InvStores(w, s);
    if f in s.versions {
      OldVersionStays(w, s, e, f);
      OldChunkStep(w, s, e, f, i);
    } else {
      NewChunkStep(w, s, e, f, i);
    }
  }

  lemma InvStores(w: World, s: State)
    requires Inv(w, s)
    ensures StoresOk(s)
  {
  }

  lemma OldVersionStays(w: World, s: State, e: Event, f: string)
    requires StoresOk(s) && Enabled(s, e) && f in s.versions
    ensures f in Apply(w, s, e).versions && Apply(w, s, e).versions[f] == s.versions[f]
  {
    hide StoresOk, Hyphenated, NewVersion, AllBlobs, SharedPrefix, IsReceiptPath, IsListing, NewSnapshot, Revoked;
    KnownIdNotDrawn(s, e, f);
  }

  /** A version that an event adds is the one it uploaded. */
  lemma AddedVersion(w: World, s: State, e: Event, f: string)
    requires Enabled(s, e) && f in Apply(w, s, e).versions && f !in s.versions
    ensures e.ShareFresh? && !e.stage.BuildFailed? && f == Hyphenated(e.draws.fileShareId)
    ensures Apply(w, s, e).versions[f] == NewVersion(w, e.req, e.file, e.draws)
    ensures f !in s.used && IsIdText(f)
  {
    hide Hyphenated, NewVersion, AllBlobs, SharedPrefix, IsReceiptPath, IsListing, NewSnapshot, Revoked, ChunkCount;
  }

  lemma UploadStays(w: World, s: State, e: Event)
    requires Enabled(s, e) && e.ShareFresh? && !e.stage.BuildFailed?
    ensures AfterUpload(w, s, e.req, e.file, e.draws).cloud.Keys <= Apply(w, s, e).cloud.Keys
  {
    hide Hyphenated, NewVersion, AllBlobs, SharedPrefix, IsReceiptPath, IsListing, NewSnapshot, Revoked, ChunkCount;
  }

  lemma NewChunkStep(w: World, s: State, e: Event, f: string, i: nat)
    requires StoresOk(s) && Enabled(s, e) && f in Apply(w, s, e).versions && f !in s.versions
    requires i < |Apply(w, s, e).versions[f].snapshot.chunkUuids|
    ensures var t := Apply(w, s, e);
            f !in s.used && IsIdText(f) && BlobPath(f, t.versions[f].snapshot.chunkUuids[i]) in t.cloud
  {
    hide StoresOk, Apply, Hyphenated, NewVersion, AllBlobs, AfterUpload, SharedPrefix, BlobPath, IsReceiptPath,
         NewSnapshot;
    AddedVersion(w, s, e, f);
    UploadStays(w, s, e);
    UploadKeepsStores(w, s, e.req, e.file, e.draws);
  }

  lemma OldChunkStep(w: World, s: State, e: Event, f: string, i: nat)
    requires StoresOk(s) && Enabled(s, e) && f in s.versions && i < |s.versions[f].snapshot.chunkUuids|
    ensures var t, path := Apply(w, s, e), BlobPath(f, s.versions[f].snapshot.chunkUuids[i]);
            path in t.cloud <==> path in s.cloud && !Deletes(e, path)
  {
    hide StoresOk, Hyphenated, NewVersion, AllBlobs, SharedPrefix, BlobPath, IsReceiptPath, IsListing, NewSnapshot,
         Revoked, Deleted;
    VersionIdText(s, f);
    var name := s.versions[f].snapshot.chunkUuids[i];
    var path := BlobPath(f, name);
    KnownIdNotDrawn(s, e, f);
    if f != Touched(s, e) {
      OtherSharesUntouched(w, s, e, f, name);
      if e.RevokeLast? {
        DeletesElsewhere(s, e, f, name);
      }
    } else if e.ShareAgain? {
      VersionShaped(s, f);
      ReceiptPaths(e.tail.placeholders.Keys, f, s.versions[f], f);
    }
  }

  lemma DeletesElsewhere(s: State, e: Event, f: string, name: string)
    requires StoresOk(s) && Enabled(s, e) && e.RevokeLast? && IsIdText(f) && f != s.shares[e.shareId].fileShareId
    ensures !Deletes(e, BlobPath(f, name))
  {
    var g, path := s.shares[e.shareId].fileShareId, BlobPath(f, name);
    RowIdText(s, e.shareId);
    hide StoresOk, SharedPrefix, BlobPath, IsListing, Deleted;
    if SharedPrefix(g) <= path {
      ForeignPath(f, g, name, path);
    } else if Deletes(e, path) {
      DeletedWasThere(s, e, path);
    }
  }

  lemma KnownIdNotDrawn(s: State, e: Event, f: string)
    requires StoresOk(s) && Enabled(s, e) && f in s.versions
    ensures e.ShareFresh? ==> f != Hyphenated(e.draws.fileShareId)
  {
  }

  lemma VersionShaped(s: State, f: string)
    requires StoresOk(s) && f in s.versions
    ensures s.versions[f].Shaped()
  {
  }

  /** In every run, a chunk of a version is in the cloud if and only if no revocation deleted it: no other call
      touches it, and none brings it back. */
  lemma {:induction false} ChunkThereIff(w: World, s: State, events: seq<Event>, f: string, i: nat)
    requires Untouched(s) && ValidRun(w, s, events) && f in After(w, s, events).versions
    requires i < |After(w, s, events).versions[f].snapshot.chunkUuids|
    ensures var path := BlobPath(f, After(w, s, events).versions[f].snapshot.chunkUuids[i]);
            path in After(w, s, events).cloud <==> forall j :: 0 <= j < |events| ==> !Deletes(events[j], path)
    decreases |events|
  {
    hide Inv, Enabled, Apply, Seals, Deletes, BlobPath;
    var before, e := events[..|events| - 1], events[|events| - 1];
    var path := BlobPath(f, After(w, s, events).versions[f].snapshot.chunkUuids[i]);
    UntouchedInv(w, s);
    RunKeepsInv(w, s, before);
    ChunkStep(w, After(w, s, before), e, f, i);
    if f in After(w, s, before).versions {
      ChunkThereIff(w, s, before, f, i);
    } else {
      BlobPathUnder(f, After(w, s, events).versions[f].snapshot.chunkUuids[i]);
      NothingDeletedYet(w, s, before, f, path);
      NotDeletedNow(w, After(w, s, before), e, f, path);
    }
    assert forall j :: 0 <= j < |before| ==> events[j] == before[j];
  }

  /** So a version is all there if and only if no last-recipient revocation in the run deleted a chunk of it. */
  lemma AllThereIff(w: World, s: State, events: seq<Event>, f: string)
    requires Untouched(s) && ValidRun(w, s, events) && f in After(w, s, events).versions
    ensures var t := After(w, s, events);
            AllThere(t.cloud, f, t.versions[f]) <==>
              forall j, i :: 0 <= j < |events| && 0 <= i < |t.versions[f].snapshot.chunkUuids| ==>
                !Deletes(events[j], BlobPath(f, t.versions[f].snapshot.chunkUuids[i]))
  {
    hide Deletes, BlobPath;
    forall i | 0 <= i < |After(w, s, events).versions[f].snapshot.chunkUuids|
      ensures BlobPath(f, After(w, s, events).versions[f].snapshot.chunkUuids[i]) in After(w, s, events).cloud <==>
                forall j :: 0 <= j < |events| ==>
                  !Deletes(events[j], BlobPath(f, After(w, s, events).versions[f].snapshot.chunkUuids[i]))
    {
      ChunkThereIff(w, s, events, f, i);
    }
  }

  // ---------------------------------------------------------------- a share that cannot be downloaded

  /** A first share without a fault, of a file that has a name and content. */
  datatype FirstShare = FirstShare(req: Request, file: VaultFile, d: Draws, delivery: Delivery, wire: seq<byte>) {
    function Event(): Event {
      ShareFresh(req, file, d, SnapshotStored(Packaged(map[], delivery, wire, true, true)))
    }

    function Id(): string {
      Hyphenated(d.fileShareId)
    }

    function RowId(): string {
      Hyphenated(d.shareId)
    }

    ghost predicate Possible(w: World, s: State) {
      && Untouched(s) && file.Valid() && d.Cover(file) && d.Fresh({}) && file.plaintext != []
      && Genuine(w, NewVersion(w, req, file, d), NewSent(req, Id(), d, delivery, wire))
    }
  }

  /** After it the share has one active row, its snapshot, all of its blobs and one package. */
  lemma AfterFirstShare(w: World, s: State, x: FirstShare)
    requires x.Possible(w, s)
    ensures Enabled(s, x.Event()) && Seals(w, s, x.Event()) && Reachable(w, Apply(w, s, x.Event()))
    ensures var t, v := Apply(w, s, x.Event()), NewVersion(w, x.req, x.file, x.d);
            && t.shares == map[x.RowId() := NewRow(x.req, x.Id(), x.d, x.delivery)]
            && t.snapshots == map[x.Id() := v.snapshot] && t.versions == map[x.Id() := v]
            && t.sent == [NewSent(x.req, x.Id(), x.d, x.delivery, x.wire)]
            && v.Shaped() && BlobsPresent(t.cloud, x.Id(), v) && |v.snapshot.chunkUuids| > 0
  {
    hide Hyphenated, Genuine, NewVersion, BlobsPresent, Enabled, Seals, Apply, Reachable;
    FirstShareRuns(w, s, x);
    FirstShareStores(w, s, x);
    FirstShareBlobs(w, s, x);
  }

  lemma FirstShareRuns(w: World, s: State, x: FirstShare)
    requires x.Possible(w, s)
    ensures Enabled(s, x.Event()) && Seals(w, s, x.Event()) && Reachable(w, Apply(w, s, x.Event()))
  {
    hide Hyphenated, Genuine, NewVersion, AllBlobs, Reachable, SharedPrefix, ChunkCount;
    UntouchedReachable(w, s);
    assert Enabled(s, x.Event());
    StepReachable(w, s, x.Event());
  }

  lemma FirstShareStores(w: World, s: State, x: FirstShare)
    requires x.Possible(w, s) && Enabled(s, x.Event())
    ensures var t, v := Apply(w, s, x.Event()), NewVersion(w, x.req, x.file, x.d);
            && t.shares == map[x.RowId() := NewRow(x.req, x.Id(), x.d, x.delivery)]
            && t.snapshots == map[x.Id() := v.snapshot] && t.versions == map[x.Id() := v]
            && t.sent == [NewSent(x.req, x.Id(), x.d, x.delivery, x.wire)]
  {
    hide Hyphenated, Genuine, NewVersion, NewSnapshot, AllBlobs, SharedPrefix, ChunkCount;
    NewVersionParts(w, x.req, x.file, x.d);
  }

  lemma FirstShareBlobs(w: World, s: State, x: FirstShare)
    requires x.Possible(w, s) && Enabled(s, x.Event())
    ensures var t, v := Apply(w, s, x.Event()), NewVersion(w, x.req, x.file, x.d);
            v.Shaped() && BlobsPresent(t.cloud, x.Id(), v) && |v.snapshot.chunkUuids| > 0
  {
    hide Hyphenated, Genuine, NewVersion, NewSnapshot, AllBlobs, SharedPrefix, ChunkCount, BlobsPresent, StoresOk;
    UntouchedStores(w, s);
    NamesDrawn(w, x);
    SnapshotKeepsStores(w, s, x.req, x.file, x.d);
    assert Apply(w, s, x.Event()).cloud == AfterSnapshot(w, s, x.req, x.file, x.d).cloud;
  }

  lemma UntouchedStores(w: World, s: State)
    requires Untouched(s)
    ensures StoresOk(s)
  {
    UntouchedInv(w, s);
  }

  lemma NamesDrawn(w: World, x: FirstShare)
    requires x.file.Valid() && x.d.Cover(x.file)
    ensures |NewVersion(w, x.req, x.file, x.d).snapshot.chunkUuids| == |x.d.blobNames| > 0
  {
  }

  /** A revocation of the only row, stopped by a fault once all blobs are gone. */
  lemma AfterStoppedRevocation(w: World, s: State, x: FirstShare, now: int, listing: seq<Path>, progress: Progress)
    requires x.Possible(w, s) && (progress == RowRefused(false) || progress == SnapshotKept(false))
    requires Enabled(s, x.Event()) && IsListing(listing, Apply(w, s, x.Event()).cloud, SharedPrefix(x.Id()))
    ensures var t, e := Apply(w, s, x.Event()), RevokeLast(x.RowId(), now, listing, progress);
            Enabled(t, e) && Seals(w, t, e) && Reachable(w, Apply(w, t, e)) &&
            var u, v := Apply(w, t, e), NewVersion(w, x.req, x.file, x.d);
            && u.versions == t.versions && u.sent == t.sent && u.snapshots == t.snapshots
            && x.RowId() in u.shares && (Active(u.shares, x.RowId()) <==> progress.RowRefused?)
            && u.shares.Keys == {x.RowId()} && u.shares[x.RowId()].fileShareId == x.Id()
            && u.shares[x.RowId()].fileId == x.req.fileId && !AllThere(u.cloud, x.Id(), v)
  {
    hide Hyphenated, Genuine, NewVersion, SharedPrefix, BlobPath, Reachable;
    AfterFirstShare(w, s, x);
    var t, e := Apply(w, s, x.Event()), RevokeLast(x.RowId(), now, listing, progress);
    StepReachable(w, t, e);
    var v := NewVersion(w, x.req, x.file, x.d);
    var path := BlobPath(x.Id(), v.snapshot.chunkUuids[0]);
    BlobPathUnder(x.Id(), v.snapshot.chunkUuids[0]);
    assert path in t.cloud;
    assert path in listing by { BlobPathLonger(x.Id(), v.snapshot.chunkUuids[0]); }
  }

  lemma BlobPathLonger(f: string, name: string)
    ensures SharedPrefix(f) < BlobPath(f, name)
  {
    BlobPathUnder(f, name);
    assert |BlobPath(f, name)| > |SharedPrefix(f)|;
  }

  /** The exception in the end-to-end promise is needed. A file is shared; the revocation of its only recipient
      deletes the blobs and then cannot mark the row. The share is still active, its package still imports, and a
      recipient with nothing in the way is answered that the cloud operation failed. */
  lemma StrandedShare(w: World, s: State, x: FirstShare, now: int, listing: seq<Path>, secret: Bytes32, y: Download)
    requires x.Possible(w, s) && w.codec.Inverse() && x.file.name != "" && |x.d.blobNames| < U32_LIMIT
    requires x.delivery.recipient == w.p.publicKey(secret) && Hpke.DhAgrees(w.p, x.d.ephemeral, secret)
    requires Enabled(s, x.Event()) && IsListing(listing, Apply(w, s, x.Event()).cloud, SharedPrefix(x.Id()))
    ensures var t, e := Apply(w, s, x.Event()), RevokeLast(x.RowId(), now, listing, RowRefused(false));
            Enabled(t, e) && Seals(w, t, e) &&
            var u := Apply(w, t, e);
            var package := NewSent(x.req, x.Id(), x.d, x.delivery, x.wire);
            && Reachable(w, u) && Active(u.shares, x.RowId()) && y.Row(w, package, secret).Ok?
            && (y.Happens(w, package, secret, u.cloud) && Unhindered(y.Row(w, package, secret).value, y.attempt) ==>
                y.answer == Err(CloudOperation))
  {
    hide Hyphenated, Genuine, ImportedRow, DownloadOutcome, AllThere, Reachable, Enabled, Seals, Apply, Serves;
    AfterFirstShare(w, s, x);
    AfterStoppedRevocation(w, s, x, now, listing, RowRefused(false));
    var u := Apply(w, Apply(w, s, x.Event()), RevokeLast(x.RowId(), now, listing, RowRefused(false)));
    NamesDrawn(w, x);
    ImportsIff(w, u, 0, secret, y.kek, y.nonce, y.importedAt);
    if y.Happens(w, u.sent[0], secret, u.cloud) {
      DownloadIff(w, u, 0, secret, y);
    }
  }

  /** Such a share is still shared again: with any active row the call can run to its end whatever the cloud
      holds, and it brings no blob back. */
  lemma SharedAgainAsItIs(w: World, t: State, id: string, req: Request, d: Draws, delivery: Delivery, wire: seq<byte>)
    requires Reachable(w, t) && Active(t.shares, id) && t.shares[id].fileId == req.fileId && d.Fresh(t.used)
    requires var f := t.shares[id].fileShareId;
             f in t.versions && Genuine(w, t.versions[f], NewSent(req, f, d, delivery, wire))
    ensures var f := t.shares[id].fileShareId;
            var e := ShareAgain(req, f, d, Packaged(map[], delivery, wire, true, true));
            Enabled(t, e) && Seals(w, t, e) &&
            var u := Apply(w, t, e);
            && Reachable(w, u) && Active(u.shares, Hyphenated(d.shareId))
            && u.sent == t.sent + [NewSent(req, f, d, delivery, wire)]
            && u.versions == t.versions
            && (AllThere(u.cloud, f, u.versions[f]) <==> AllThere(t.cloud, f, t.versions[f]))
  {
    hide Hyphenated, Genuine, Reachable;
    var f := t.shares[id].fileShareId;
    var e := ShareAgain(req, f, d, Packaged(map[], delivery, wire, true, true));
    assert Enabled(t, e);
    StepReachable(w, t, e);
    assert Apply(w, t, e).cloud == t.cloud + map[] == t.cloud;
  }

  // ---------------------------------------------------------------- snapshots that stay behind

  /** The version that an event is about. */
  ghost function Subject(s: State, e: Event): string
    requires Enabled(s, e)
  {
    match e
    case Idle => ""
    case ShareFresh(_, _, d, _) => Hyphenated(d.fileShareId)
    case ShareAgain(_, f, _, _) => f
    case RevokeOne(id, _, _, _) => s.shares[id].fileShareId
    case RevokeLast(id, _, _, _) => s.shares[id].fileShareId
  }

  ghost predicate RowStored(tail: Tail) {
    tail.Packaged? && tail.stored
  }

  /** After the event its version has no active row. */
  ghost predicate Retires(e: Event) {
    || (e.ShareFresh? && !(e.stage.SnapshotStored? && RowStored(e.stage.tail)))
    || (e.RevokeLast? && RowDone(e.progress))
  }

  /** After the event its version has its snapshot. */
  ghost predicate KeepsSnapshot(e: Event) {
    match e
    case ShareFresh(_, _, _, BuildFailed(_)) => false
    case ShareFresh(_, _, _, SnapshotRefused(stored)) => stored
    case RevokeLast(_, _, _, progress) => !SnapshotDone(progress)
    case _ => true
  }

  /** The four ways to end with a snapshot and no active row: the snapshot insert took effect but was reported as
      failed; no row was stored after it; the row was marked but that was reported as failed; or the deletion of
      the snapshot was refused. */
  ghost predicate LeavesSnapshot(e: Event) {
    || (e.ShareFresh? && e.stage == SnapshotRefused(true))
    || (e.ShareFresh? && e.stage.SnapshotStored? && !RowStored(e.stage.tail))
    || (e.RevokeLast? && e.progress == RowRefused(true))
    || (e.RevokeLast? && e.progress == SnapshotKept(false))
  }

  /** What the invariant says about one version. */
  lemma VersionFacts(w: World, s: State)
    requires Inv(w, s)
    ensures forall id :: Active(s.shares, id) ==> s.shares[id].fileShareId in s.snapshots
    ensures forall f :: f in s.snapshots ==> f in s.versions
    ensures forall id :: id in s.shares ==> id in s.used && s.shares[id].fileShareId in s.versions
    ensures forall f :: f in s.versions ==> f in s.used
  {
    assert forall id :: id in s.shares ==> RowOk(s.shares[id], id, s.versions, s.used);
  }

  lemma TailRows(s: State, req: Request, g: string, d: Draws, tail: Tail, f: string)
    requires Hyphenated(d.shareId) !in s.shares
    ensures var t := AfterTail(s, req, g, d, tail);
            && t.versions == s.versions && t.snapshots == s.snapshots
            && ((exists id :: Active(t.shares, id) && t.shares[id].fileShareId == f) <==>
                (exists id :: Active(s.shares, id) && s.shares[id].fileShareId == f) || (g == f && RowStored(tail)))
  {
    hide Hyphenated, SharedPrefix;
    var t, added := AfterTail(s, req, g, d, tail), Hyphenated(d.shareId);
    assert forall id :: id != added ==> (Active(t.shares, id) <==> Active(s.shares, id));
    assert RowStored(tail) ==> Active(t.shares, added) && t.shares[added].fileShareId == g;
    if id :| Active(s.shares, id) && s.shares[id].fileShareId == f {
      assert Active(t.shares, id) && t.shares[id].fileShareId == f;
    }
  }

  lemma FreshDecides(w: World, s: State, e: Event, f: string)
    requires Inv(w, s) && Enabled(s, e) && e.ShareFresh? && Subject(s, e) == f && f in Apply(w, s, e).versions
    ensures var t := Apply(w, s, e);
            (f in t.snapshots <==> KeepsSnapshot(e)) && (Dead(t, f) <==> Retires(e))
  {
    hide Inv, Hyphenated, NewVersion, AllBlobs, NewSnapshot, AfterTail, SharedPrefix, IsReceiptPath;
    VersionFacts(w, s);
    if e.stage.SnapshotStored? {
      TailRows(AfterSnapshot(w, s, e.req, e.file, e.draws), e.req, f, e.draws, e.stage.tail, f);
    }
  }

  lemma AgainDecides(w: World, s: State, e: Event, f: string)
    requires Inv(w, s) && Enabled(s, e) && e.ShareAgain? && Subject(s, e) == f
    ensures var t := Apply(w, s, e); f in t.snapshots && !Dead(t, f)
  {
    hide Inv, Hyphenated, AfterTail, SharedPrefix, IsReceiptPath, NewVersion, AllBlobs;
    VersionFacts(w, s);
    TailRows(s.(used := s.used + {Hyphenated(e.draws.shareId)}), e.req, f, e.draws, e.tail, f);
  }

  lemma RevokeOneDecides(w: World, s: State, e: Event, f: string)
    requires Inv(w, s) && Enabled(s, e) && e.RevokeOne? && Subject(s, e) == f
    ensures var t := Apply(w, s, e); f in t.snapshots && !Dead(t, f)
  {
    hide Inv, Hyphenated, AfterTail, SharedPrefix, IsReceiptPath, NewVersion, AllBlobs;
    VersionFacts(w, s);
    var other :| other != e.shareId && Active(s.shares, other) && s.shares[other].fileShareId == f;
    assert Active(Apply(w, s, e).shares, other) && Apply(w, s, e).shares[other].fileShareId == f;
  }

  lemma RevokeLastDecides(w: World, s: State, e: Event, f: string)
    requires Inv(w, s) && Enabled(s, e) && e.RevokeLast? && Subject(s, e) == f
    ensures var t := Apply(w, s, e);
            (f in t.snapshots <==> KeepsSnapshot(e)) && (Dead(t, f) <==> Retires(e))
  {
    hide SharedPrefix, IsListing;
    var t := Apply(w, s, e);
    assert RowOk(s.shares[e.shareId], e.shareId, s.versions, s.used);
    assert f in s.snapshots && f in t.versions;
    if !RowDone(e.progress) {
      assert Active(t.shares, e.shareId);
    } else {
      RowRevoked(s.shares, s.versions, s.used, e.shareId, e.now);
      assert t.shares == Revoked(s.shares, e.shareId, e.now);
    }
  }

  /** The event about a version decides whether it keeps its snapshot and an active row. */
  lemma SubjectDecides(w: World, s: State, e: Event, f: string)
    requires Inv(w, s) && Enabled(s, e) && !e.Idle? && Subject(s, e) == f && f in Apply(w, s, e).versions
    ensures var t := Apply(w, s, e);
            (f in t.snapshots <==> KeepsSnapshot(e)) && (Dead(t, f) <==> Retires(e))
  {
    hide Inv, Enabled, Subject, Dead, Apply;
    match e
    case ShareFresh(_, _, _, _) => FreshDecides(w, s, e, f);
    case ShareAgain(_, _, _, _) => AgainDecides(w, s, e, f);
    case RevokeOne(_, _, _, _) => RevokeOneDecides(w, s, e, f);
    case RevokeLast(_, _, _, _) => RevokeLastDecides(w, s, e, f);
  }

  /** An event about another version changes neither. */
  lemma OthersSpared(w: World, s: State, e: Event, f: string)
    requires Inv(w, s) && Enabled(s, e) && (e.Idle? || Subject(s, e) != f) && f in Apply(w, s, e).versions
    ensures f in s.versions
    ensures var t := Apply(w, s, e);
            (f in t.snapshots <==> f in s.snapshots) && (Dead(t, f) <==> Dead(s, f))
  {
    hide Inv, Hyphenated, AfterTail, SharedPrefix, IsReceiptPath, IsListing, NewVersion, AllBlobs, NewSnapshot, Revoked,
         HasSibling, ChunkCount;
    VersionFacts(w, s);
    match e
    case Idle =>
    case ShareFresh(_, _, _, _) => FreshSpares(w, s, e, f);
    case ShareAgain(req, g, d, tail) =>
      TailRows(s.(used := s.used + {Hyphenated(d.shareId)}), req, g, d, tail, f);
    case RevokeOne(id, now, _, _) => RevokedRowSpares(s.shares, id, now, f);
    case RevokeLast(id, now, _, _) => RevokedRowSpares(s.shares, id, now, f);
  }

  lemma FreshSpares(w: World, s: State, e: Event, f: string)
    requires Inv(w, s) && Enabled(s, e) && e.ShareFresh? && Subject(s, e) != f && f in Apply(w, s, e).versions
    ensures f in s.versions
    ensures var t := Apply(w, s, e);
            (f in t.snapshots <==> f in s.snapshots) && (Dead(t, f) <==> Dead(s, f))
  {
    hide Inv, Hyphenated, AfterTail, SharedPrefix, IsReceiptPath, NewVersion, AllBlobs, NewSnapshot, ChunkCount;
    VersionFacts(w, s);
    if e.stage.SnapshotStored? {
      TailRows(AfterSnapshot(w, s, e.req, e.file, e.draws), e.req, Hyphenated(e.draws.fileShareId), e.draws,
               e.stage.tail, f);
    }
  }

  lemma RevokedRowSpares(shares: Shares, id: string, now: int, f: string)
    requires id in shares && shares[id].fileShareId != f
    ensures (exists x :: Active(Revoked(shares, id, now), x) && Revoked(shares, id, now)[x].fileShareId == f) <==>
              (exists x :: Active(shares, x) && shares[x].fileShareId == f)
  {
    var after := Revoked(shares, id, now);
    assert forall x :: Active(after, x) ==> Active(shares, x) && after[x] == shares[x];
    if x :| Active(shares, x) && shares[x].fileShareId == f {
      assert Active(after, x) && after[x].fileShareId == f;
    }
  }

  /** For every run and every version: the last event about it decides whether its snapshot is stored and whether
      it has an active row. */
  lemma {:induction false} LastEventDecides(w: World, s: State, events: seq<Event>, f: string) returns (j: nat)
    requires Untouched(s) && ValidRun(w, s, events) && f in After(w, s, events).versions
    ensures j < |events| && !events[j].Idle?
    ensures forall k :: j <= k < |events| ==>
              ValidRun(w, s, events[..k]) && Enabled(After(w, s, events[..k]), events[k])
    ensures Subject(After(w, s, events[..j]), events[j]) == f
    ensures forall k :: j < k < |events| ==> events[k].Idle? || Subject(After(w, s, events[..k]), events[k]) != f
    ensures f in After(w, s, events).snapshots <==> KeepsSnapshot(events[j])
    ensures Dead(After(w, s, events), f) <==> Retires(events[j])
    decreases |events|
  {
    hide Inv, Enabled, Subject, Dead, Apply, Retires, KeepsSnapshot;
    var before, e := events[..|events| - 1], events[|events| - 1];
    UntouchedInv(w, s);
    RunKeepsInv(w, s, before);
    if !e.Idle? && Subject(After(w, s, before), e) == f {
      j := |events| - 1;
      SubjectDecides(w, After(w, s, before), e, f);
    } else {
      OthersSpared(w, After(w, s, before), e, f);
      j := LastEventDecides(w, s, before, f);
      forall k | j <= k < |events|
        ensures k < |before| ==> events[..k] == before[..k] && events[k] == before[k]
        ensures k == |before| ==> events[..k] == before
      {
      }
    }
  }

  /** So a version without active rows still has its snapshot, wrapped key and all, if and only if the last event
      about it was one of four. */
  lemma LeftoverSnapshotIff(w: World, s: State, events: seq<Event>, f: string) returns (j: nat)
    requires Untouched(s) && ValidRun(w, s, events) && Dead(After(w, s, events), f)
    ensures j < |events| && ValidRun(w, s, events[..j]) && Enabled(After(w, s, events[..j]), events[j])
    ensures Subject(After(w, s, events[..j]), events[j]) == f
    ensures f in After(w, s, events).snapshots <==> LeavesSnapshot(events[j])
  {
    hide Enabled, Subject, After;
    j := LastEventDecides(w, s, events, f);
  }

  /** One of the four at work. A file is shared; its revocation deletes the blobs and marks the row, and then cannot
      delete the snapshot. The wrapped key is still stored and unwraps, retrying the revocation is refused, and no
      later run of calls removes the snapshot. */
  lemma SnapshotOutlivesShare(w: World, s: State, x: FirstShare, now: int, listing: seq<Path>, later: seq<Event>)
    requires x.Possible(w, s) && Enabled(s, x.Event())
    requires IsListing(listing, Apply(w, s, x.Event()).cloud, SharedPrefix(x.Id()))
    ensures var t, e := Apply(w, s, x.Event()), RevokeLast(x.RowId(), now, listing, SnapshotKept(false));
            Enabled(t, e) && Seals(w, t, e) &&
            var u := Apply(w, t, e);
            && !Active(u.shares, x.RowId()) && x.Id() in u.snapshots
            && UnwrappedFileKey(w.p, u.snapshots[x.Id()].shareFileKeyWrapped, x.d.shareFileId, w.kek) ==
               Some(x.d.shareKey)
            && (forall now', faults: RevokeFaults, r, e' ::
                  RevokeAnswer(u.shares, x.RowId(), now', faults, r, e') && !faults.getFails ==>
                    (e', r) == (Idle, Err(ShareAlreadyRevoked)))
            && (ValidRun(w, u, later) ==> x.Id() in After(w, u, later).snapshots)
  {
    hide Hyphenated, Genuine, AllThere, Reachable, Enabled, Seals, Apply, UnwrappedFileKey;
    AfterFirstShare(w, s, x);
    AfterStoppedRevocation(w, s, x, now, listing, SnapshotKept(false));
    var u := Apply(w, Apply(w, s, x.Event()), RevokeLast(x.RowId(), now, listing, SnapshotKept(false)));
    NewVersionEncrypts(w, x.req, x.file, x.d);
    NewVersionParts(w, x.req, x.file, x.d);
    if ValidRun(w, u, later) {
      ReachableInv(w, u);
      assert Dead(u, x.Id());
      DeadStaysDead(w, u, later, x.Id());
    }
  }
}
