/** The recipient's download of a received share: from the expiry check over the fetch to the decrypted file. */
module Recipient {
  import opened Aead
  import B2Conf
  import opened Bytes
  import opened CloudPaths
  import opened DataPath
  import opened Envelope
  import opened Fetch
  import Packages
  import opened Store
  import Text
  import opened Uuid
  import VaultPath
  import opened Wrappers

  predicate Expired(row: ReceivedShare, now: int) {
    row.expiresAt.Some? && row.expiresAt.value < now
  }

  /** What else decides one call: the clock, whether the second look at the row fails, the machine, and whether the
      destination file cannot be written. */
  datatype Attempt = Attempt(now: int, secondReadFails: bool, machine: Machine, destinationFails: bool)

  /** The blobs that the decrypt stage finds, by name. */
  function StagedBlobs(files: Files, staging: string, names: seq<string>): map<string, seq<byte>> {
    map name | name in names && ChunkPath(staging, name) in files :: files[ChunkPath(staging, name)]
  }

  predicate KeyReadable(p: Primitives, row: ReceivedShare, kek: Bytes32) {
    var fileId := ParseStr(row.fileId);
    fileId.Some? && UnwrappedFileKey(p, row.fileKeyWrapped, fileId.value, kek).Some?
  }

  /** The decrypt stage; the caller is not told its errors apart. */
  function Decrypted(p: Primitives, row: ReceivedShare, kek: Bytes32, staged: map<string, seq<byte>>,
                     destinationFails: bool): Result<seq<byte>>
  {
    if destinationFails then Err(Internal)
    else match Downloaded(p, row, kek, staged)
      case Ok(file) => Ok(file)
      case Err(Panicked) => Err(Panicked)
      case Err(_) => Err(Internal)
  }

  /** The answer of a download and the staging files it leaves, for every pattern of faults. */
  ghost predicate DownloadOutcome(p: Primitives, shareId: string, lookup: Result<ReceivedShare>, kek: Bytes32,
                                  a: Attempt, transfers: seq<Transfer>, files: Files, stuck: set<string>,
                                  after: Files, r: Result<seq<byte>>)
    requires lookup.Ok? ==> |transfers| == |lookup.value.chunkUuids|
  {
    if lookup.Err? then r == Err(lookup.error) && after == files
    else if Expired(lookup.value, a.now) then r == Err(InvalidInput) && after == files
    else if !KeyReadable(p, lookup.value, kek) then r == Err(Internal) && after == files
    else
      var row, m := lookup.value, a.machine;
      exists mid, fetched ::
        && FetchOutcome(shareId, SecondRead(lookup, a), m, transfers, files, stuck, mid, fetched)
        && match fetched
           case Err(error) => r == Err(error) && after == mid
           case Ok(paths) =>
             && r == Decrypted(p, row, kek, StagedBlobs(mid, m.staging, row.chunkUuids), a.destinationFails)
             && after == mid - (Elements(paths) - stuck)
  }

  function SecondRead(lookup: Result<ReceivedShare>, a: Attempt): Result<ReceivedShare> {
    if a.secondReadFails then Err(Backend) else lookup
  }

  method DownloadReceivedShare(disk: Staging, p: Primitives, shareId: string, lookup: Result<ReceivedShare>,
                               kek: Bytes32, a: Attempt, transfers: seq<Transfer>)
    returns (r: Result<seq<byte>>)
    requires lookup.Ok? ==> |transfers| == |lookup.value.chunkUuids|
    modifies disk
    ensures DownloadOutcome(p, shareId, lookup, kek, a, transfers, old(disk.files), disk.stuck, disk.files, r)
  {
    hide FetchOutcome, ParseStr, UnwrappedFileKey, ReceivedPrefix, ChunkPath, Elements;
    if lookup.Err? {
      return Err(lookup.error);
    }
    var row, m := lookup.value, a.machine;
    if row.expiresAt.Some? && row.expiresAt.value < a.now {
      return Err(InvalidInput);
    }
    var fileId := ParseStr(row.fileId);
    if fileId.None? {
      return Err(Internal);
    }
    var key := UnwrapFileKey(p, row.fileKeyWrapped, fileId.value, kek);
    if key.Err? {
      return Err(Internal);
    }
    var fileSize := SizeOf(row);
    var localBlobs := disk.FetchReceivedShareToLocal(shareId, SecondRead(lookup, a), m, transfers);
    ghost var mid := disk.files;
    assert FetchOutcome(shareId, SecondRead(lookup, a), m, transfers, old(disk.files), disk.stuck, mid, localBlobs);
    if localBlobs.Err? {
      return Err(localBlobs.error);
    }
    var staged := StagedBlobs(disk.files, m.staging, row.chunkUuids);
    var decrypted := DecryptReceivedShareBlobs(p, fileId.value, key.value, fileSize, row.chunkCount, row.chunkSize,
                                               row.chunkUuids, staged);
    disk.CleanupTempFiles(localBlobs.value);
    if a.destinationFails {
      return Err(Internal);
    }
    match decrypted
    case Ok(file) => return Ok(file);
    case Err(Panicked) => return Err(Panicked);
    case Err(_) => return Err(Internal);
  }

  // ---------------------------------------------------------------- a transport that works

  /** Where a blob is asked for. */
  function RemotePath(row: ReceivedShare, hasBinary: bool, name: string): Path {
    (if HasScopedTransport(row, hasBinary) then "" else PathPrefix(row)) + name + ".blob"
  }

  /** The downloads from a transport that copies what is there and reports what is not. */
  function HonestTransfers(store: map<Path, seq<byte>>, row: ReceivedShare, hasBinary: bool): (transfers: seq<Transfer>)
    ensures |transfers| == |row.chunkUuids|
  {
    seq(|row.chunkUuids|, i requires 0 <= i < |row.chunkUuids| =>
      var path := RemotePath(row, hasBinary, row.chunkUuids[i]);
      if path in store then Transfer(true, Some(store[path]), false) else Transfer(false, None, false))
  }

  predicate Found(store: map<Path, seq<byte>>, row: ReceivedShare, hasBinary: bool) {
    forall i :: 0 <= i < |row.chunkUuids| ==> RemotePath(row, hasBinary, row.chunkUuids[i]) in store
  }

  predicate NamedByUuids(row: ReceivedShare) {
    forall i :: 0 <= i < |row.chunkUuids| ==> IsUuidV4Str(row.chunkUuids[i])
  }

  lemma ChunkPathInjective(staging: string, a: string, b: string)
    requires IsUuidV4Str(a) && IsUuidV4Str(b) && ChunkPath(staging, a) == ChunkPath(staging, b)
    ensures a == b
  {
    hide IsUuidV4Str, VaultPath.Split, Pieces;
    ChunkStaysInStaging(staging, a);
    ChunkStaysInStaging(staging, b);
    var dir := Components(staging);
    assert (dir + [a + ".blob"])[|dir|] == (dir + [b + ".blob"])[|dir|];
    ConcatInjective(a, ".blob", b, ".blob");
  }

  /** Each file that was found holds what was found. */
  lemma {:induction false} HonestFiles(store: map<Path, seq<byte>>, row: ReceivedShare, m: Machine, files: Files,
                                       n: nat, i: nat)
    requires NamedByUuids(row) && i < n <= |row.chunkUuids|
    requires RemotePath(row, m.hasBinary, row.chunkUuids[i]) in store
    ensures var job := JobOf(row, m, HonestTransfers(store, row, m.hasBinary));
            && job.Path(i) in job.FilesAfter(files, n)
            && job.FilesAfter(files, n)[job.Path(i)] == store[RemotePath(row, m.hasBinary, row.chunkUuids[i])]
    decreases n
  {
    hide IsUuidV4Str, ChunkPath, RemotePath, Addressable;
    var job := JobOf(row, m, HonestTransfers(store, row, m.hasBinary));
    if i < n - 1 {
      HonestFiles(store, row, m, files, n - 1, i);
      if job.Path(n - 1) == job.Path(i) {
        ChunkPathInjective(m.staging, row.chunkUuids[n - 1], row.chunkUuids[i]);
      }
    }
  }

  /** A chunk is fetched if and only if it can be addressed and is found. */
  lemma HonestFetched(store: map<Path, seq<byte>>, row: ReceivedShare, m: Machine, files: Files, i: nat)
    requires NamedByUuids(row) && i < |row.chunkUuids|
    ensures var job := JobOf(row, m, HonestTransfers(store, row, m.hasBinary));
            job.Fetched(files, i) <==>
              Addressable(row, m.hasBinary) && RemotePath(row, m.hasBinary, row.chunkUuids[i]) in store
  {
    hide IsUuidV4Str, ChunkPath, RemotePath, Addressable;
    if RemotePath(row, m.hasBinary, row.chunkUuids[i]) in store {
      HonestFiles(store, row, m, files, i + 1, i);
    }
  }

  /** What a fetch through such a transport yields. */
  lemma HonestFetch(store: map<Path, seq<byte>>, shareId: string, row: ReceivedShare, m: Machine, files: Files,
                    stuck: set<string>, after: Files, r: Result<seq<string>>)
    requires NamedByUuids(row) && row.chunkUuids != [] && m.stagingReady && Ready(row, m)
    requires FetchOutcome(shareId, Ok(row), m, HonestTransfers(store, row, m.hasBinary), files, stuck, after, r)
    ensures r.Ok? <==> Addressable(row, m.hasBinary) && Found(store, row, m.hasBinary)
    ensures r.Err? ==> r.error == if Addressable(row, m.hasBinary) then CloudOperation else InvalidSharePackage
    ensures r.Ok? ==>
              forall i :: 0 <= i < |row.chunkUuids| ==>
                var staged, name := StagedBlobs(after, m.staging, row.chunkUuids), row.chunkUuids[i];
                name in staged && staged[name] == store[RemotePath(row, m.hasBinary, name)]
  {
    hide IsUuidV4Str, ChunkPath, RemotePath, Addressable, ConfText, Buildable, HasScopedTransport, ConfPath, GetText;
    var job, conf := JobOf(row, m, HonestTransfers(store, row, m.hasBinary)), ConfWritten(row, m, shareId);
    forall i | 0 <= i < |row.chunkUuids|
      ensures job.Fetched(files + conf, i) <==>
                Addressable(row, m.hasBinary) && RemotePath(row, m.hasBinary, row.chunkUuids[i]) in store
    {
      HonestFetched(store, row, m, files + conf, i);
    }
    if r.Ok? {
      forall i | 0 <= i < |row.chunkUuids|
        ensures row.chunkUuids[i] in StagedBlobs(after, m.staging, row.chunkUuids)
        ensures StagedBlobs(after, m.staging, row.chunkUuids)[row.chunkUuids[i]] ==
                store[RemotePath(row, m.hasBinary, row.chunkUuids[i])]
      {
        assert job.Fetched(files + conf, i);
        HonestFiles(store, row, m, files + conf, |row.chunkUuids|, i);
        ConfIsNotAChunk(m.staging, shareId, row.chunkUuids[i]);
      }
    } else {
      var n: nat :| job.FailedAt(files + conf, n, conf.Keys, stuck, after, r.error);
      assert !job.Fetched(files + conf, n);
    }
  }

  /** The first thing that stops a download through such a transport, before anything is decrypted. */
  function Obstacle(store: map<Path, seq<byte>>, row: ReceivedShare, a: Attempt): Option<Error> {
    var m := a.machine;
    if Expired(row, a.now) then Some(InvalidInput)
    else if a.secondReadFails then Some(Backend)
    else if !m.stagingReady || !Ready(row, m) then Some(EarlyError(Ok(row), m))
    else if !Addressable(row, m.hasBinary) then Some(InvalidSharePackage)
    else if !Found(store, row, m.hasBinary) then Some(CloudOperation)
    else None
  }

  /** The answer through such a transport: the obstacle, or what the found blobs decrypt to. */
  lemma HonestDownload(p: Primitives, store: map<Path, seq<byte>>, shareId: string, row: ReceivedShare, kek: Bytes32,
                       a: Attempt, files: Files, stuck: set<string>, after: Files, r: Result<seq<byte>>)
    returns (staged: map<string, seq<byte>>)
    requires NamedByUuids(row) && row.chunkUuids != [] && KeyReadable(p, row, kek)
    requires DownloadOutcome(p, shareId, Ok(row), kek, a, HonestTransfers(store, row, a.machine.hasBinary),
                             files, stuck, after, r)
    ensures Obstacle(store, row, a).Some? ==> r == Err(Obstacle(store, row, a).value)
    ensures Obstacle(store, row, a).None? ==>
              && r == Decrypted(p, row, kek, staged, a.destinationFails)
              && forall i :: 0 <= i < |row.chunkUuids| ==>
                   var name := row.chunkUuids[i];
                   name in staged && staged[name] == store[RemotePath(row, a.machine.hasBinary, name)]
  {
    hide FetchOutcome, Found, NamedByUuids, KeyReadable, Addressable, Ready, Decrypted, StagedBlobs, RemotePath;
    staged := map[];
    if !Expired(row, a.now) {
      var m, lookup := a.machine, SecondRead(Ok(row), a);
      var transfers := HonestTransfers(store, row, m.hasBinary);
      var mid, fetched :|
        && FetchOutcome(shareId, lookup, m, transfers, files, stuck, mid, fetched)
        && match fetched
           case Err(error) => r == Err(error) && after == mid
           case Ok(paths) =>
             && r == Decrypted(p, row, kek, StagedBlobs(mid, m.staging, row.chunkUuids), a.destinationFails)
             && after == mid - (Elements(paths) - stuck);
      if a.secondReadFails || !m.stagingReady || !Ready(row, m) {
        EarlyFetch(shareId, lookup, m, transfers, files, stuck, mid, fetched);
      } else {
        HonestFetch(store, shareId, row, m, files, stuck, mid, fetched);
        staged := StagedBlobs(mid, m.staging, row.chunkUuids);
      }
    }
  }

  lemma EarlyFetch(shareId: string, lookup: Result<ReceivedShare>, m: Machine, transfers: seq<Transfer>, files: Files,
                   stuck: set<string>, after: Files, r: Result<seq<string>>)
    requires lookup.Ok? ==> |transfers| == |lookup.value.chunkUuids|
    requires FetchOutcome(shareId, lookup, m, transfers, files, stuck, after, r)
    requires lookup.Err? || !m.stagingReady || !Ready(lookup.value, m)
    ensures r == Err(EarlyError(lookup, m))
  {
  }

  /** With a key-encryption key, or for a file id, under which the row's key was not wrapped, the answer is an internal
      error and nothing is fetched, unless tags collide. */
  lemma WrongKeyRefused(p: Primitives, shareId: string, row: ReceivedShare, kek: Bytes32, a: Attempt,
                        transfers: seq<Transfer>, files: Files, stuck: set<string>, after: Files, r: Result<seq<byte>>,
                        key: Bytes32, fileId: Bytes16, kek': Bytes32, nonce: Bytes24)
    requires |transfers| == |row.chunkUuids| && !Expired(row, a.now)
    requires DownloadOutcome(p, shareId, Ok(row), kek, a, transfers, files, stuck, after, r)
    requires row.fileKeyWrapped == WrappedFileKey(p, key, fileId, kek', nonce)
    requires ParseStr(row.fileId).None? || (
               var id := ParseStr(row.fileId).value;
               (kek, id) != (kek', fileId) &&
               !TagCollision(p, nonce, CipherBlocks(p, kek', nonce, 1, key), kek', FileKey(fileId), kek, FileKey(id)))
    ensures r == Err(Internal) && after == files
  {
    hide FetchOutcome, CipherBlocks, WrappedFileKey, UnwrappedFileKey, TagCollision, ParseStr, Decrypted;
    if ParseStr(row.fileId).Some? {
      FileKeyBoundToFile(p, key, fileId, kek', nonce, ParseStr(row.fileId).value, kek);
    }
  }

  /** If a blob that is found was made under another key, for another file or for another position, the answer is an
      error and no file, unless tags collide. */
  lemma MisplacedBlobRefused(p: Primitives, store: map<Path, seq<byte>>, shareId: string, row: ReceivedShare,
                             kek: Bytes32, a: Attempt, files: Files, stuck: set<string>, after: Files,
                             r: Result<seq<byte>>, i: nat, o: Origin)
    requires NamedByUuids(row) && row.chunkUuids != [] && KeyReadable(p, row, kek) && Obstacle(store, row, a).None?
    requires DownloadOutcome(p, shareId, Ok(row), kek, a, HonestTransfers(store, row, a.machine.hasBinary),
                             files, stuck, after, r)
    requires i < |row.chunkUuids| < U32_LIMIT
    requires MadeAs(p, store[RemotePath(row, a.machine.hasBinary, row.chunkUuids[i])], o)
    requires var id := ParseStr(row.fileId).value;
             var key := UnwrappedFileKey(p, row.fileKeyWrapped, id, kek).value;
             |key| == 32 && (o.key, o.fileId, o.index) != (key, id, i) &&
             !TagCollision(p, o.nonce, CipherBlocks(p, o.key, o.nonce, 1, o.content),
                           o.key, Chunk(o.fileId, o.index), key, Chunk(id, i))
    ensures r == Err(Internal) || r == Err(Panicked)
  {
    hide DownloadOutcome, CipherBlocks, TagCollision, ParseStr, UnwrappedFileKey, MadeAs, RemotePath, ReceivedPrefix,
         NamedByUuids, Ready, Addressable;
    var id := ParseStr(row.fileId).value;
    var key := UnwrappedFileKey(p, row.fileKeyWrapped, id, kek).value;
    var staged := HonestDownload(p, store, shareId, row, kek, a, files, stuck, after, r);
    MisplacedBlobRejected(p, id, key, SizeOf(row), row.chunkSize, row.chunkUuids, staged, i, o);
  }

  /** After a download that gave a file no chunk file is left in the staging directory, except those that cannot be
      removed. */
  lemma NoChunkFileRemains(p: Primitives, shareId: string, row: ReceivedShare, kek: Bytes32, a: Attempt,
                           transfers: seq<Transfer>, files: Files, stuck: set<string>, after: Files,
                           r: Result<seq<byte>>, i: nat)
    requires |transfers| == |row.chunkUuids| && i < |row.chunkUuids| && r.Ok?
    requires DownloadOutcome(p, shareId, Ok(row), kek, a, transfers, files, stuck, after, r)
    ensures ChunkPath(a.machine.staging, row.chunkUuids[i]) in after ==>
              ChunkPath(a.machine.staging, row.chunkUuids[i]) in stuck
  {
    hide IsUuidV4Str, ChunkPath, Addressable, ConfText, Buildable, HasScopedTransport, GetText, Decrypted, KeyReadable;
    var m, lookup := a.machine, SecondRead(Ok(row), a);
    var mid, fetched :|
      && FetchOutcome(shareId, lookup, m, transfers, files, stuck, mid, fetched)
      && match fetched
         case Err(error) => r == Err(error) && after == mid
         case Ok(paths) =>
           && r == Decrypted(p, row, kek, StagedBlobs(mid, m.staging, row.chunkUuids), a.destinationFails)
           && after == mid - (Elements(paths) - stuck);
    var job := JobOf(row, m, transfers);
    assert job.Paths(|row.chunkUuids|)[i] == job.Path(i);
  }

  // ---------------------------------------------------------------- where B2 blobs are looked for

  /** The key of a cloud path in the bucket of a vault whose destination has this path prefix. */
  function SenderKey(destination: string, path: Path): string {
    if destination == "" then path else destination + "/" + path
  }

  /** The key that a transport with scoped B2 credentials asks for, given its remote path. */
  function RootedKey(pathPrefix: string, remote: Path): string {
    Text.TrimEnd(pathPrefix, VaultPath.SLASH) + "/" + remote
  }

  /** Sender and recipient mean the same key if and only if the vault lies at the root of its bucket: the
      credentials name the share's prefix without that of the destination. */
  lemma B2KeysAgreeIff(destination: string, f: string, row: ReceivedShare, hasBinary: bool, name: string)
    requires IsIdText(f) && HasScopedTransport(row, hasBinary)
    ensures (SenderKey(destination, BlobPath(f, name)) ==
             RootedKey(SharedPrefix(f), RemotePath(row, hasBinary, name))) <==> destination == ""
  {
    ScopedRemote(row, hasBinary, name);
    SharedPrefixTrimmed(f);
    var key := BlobPath(f, name);
    assert SharedPrefix(f) + (name + ".blob") == key;
    assert |SenderKey(destination, key)| == |key| <==> destination == "";
  }

  lemma ScopedRemote(row: ReceivedShare, hasBinary: bool, name: string)
    ensures HasScopedTransport(row, hasBinary) ==> RemotePath(row, hasBinary, name) == name + ".blob"
    ensures !HasScopedTransport(row, hasBinary) ==> RemotePath(row, hasBinary, name) == PathPrefix(row) + name + ".blob"
  {
    assert "" + name == name;
  }

  lemma SharedPrefixTrimmed(f: string)
    requires IsIdText(f)
    ensures Text.TrimEnd(SharedPrefix(f), VaultPath.SLASH) + "/" == SharedPrefix(f)
  {
    var prefix := SharedPrefix(f);
    assert prefix[..|prefix| - 1] + "/" == prefix;
    assert f[|f| - 1] in f;
  }

  /** Not a blob at the top of the vault, and in no folder with a name as long as a share id. */
  predicate Ordinary(path: Path) {
    var n := Text.Find(path, '/');
    n != 36 && (n == |path| ==> |path| < 5 || path[|path| - 5..] != ".blob")
  }

  /** Nor does the sender then have any other ordinary object under the key that is asked for. */
  lemma KeyElsewhere(destination: string, path: Path, f: string, name: string)
    requires destination != "" && IsIdText(f) && '/' !in name && Ordinary(path)
    ensures SenderKey(destination, path) != RootedKey(SharedPrefix(f), name + ".blob")
  {
    SharedPrefixTrimmed(f);
    var key, n := BlobPath(f, name), |destination|;
    assert (destination + "/" + path)[n] == '/' && (destination + "/" + path)[n + 1..] == path;
    assert SharedPrefix(f) + (name + ".blob") == key;
    hide Ordinary, SharedPrefix, BlobPath;
    if SenderKey(destination, path) == key {
      SlashesOfKey(f, name, n);
      AfterSlash(f, name, n);
    }
  }

  /** A key has two slashes. */
  lemma SlashesOfKey(f: string, name: string, n: nat)
    requires IsIdText(f) && '/' !in name && n < |BlobPath(f, name)| && BlobPath(f, name)[n] == '/'
    ensures n == 6 || n == 43
  {
  }

  lemma AfterSlash(f: string, name: string, n: nat)
    requires IsIdText(f) && '/' !in name && (n == 6 || n == 43)
    ensures |BlobPath(f, name)| > 43 && !Ordinary(BlobPath(f, name)[n + 1..])
  {
    var last := name + ".blob";
    if n == 6 {
      assert BlobPath(f, name)[7..] == f + ['/'] + last;
      Text.FindIs(f, '/', last);
    } else {
      assert BlobPath(f, name)[44..] == last;
      VaultPath.NoSlash(last);
      assert last[|last| - 5..] == ".blob";
    }
  }

  // ---------------------------------------------------------------- what the senders' transports answer

  /** The credentials that a B2 transport answers for a share. */
  function B2Answer(bucket: string, downloadUrl: string, keyId: string, appKey: string, pathPrefix: string)
    : map<string, Json>
  {
    map["provider" := Json.Text("b2"), "bucket" := Json.Text(bucket), "download_url" := Json.Text(downloadUrl),
        "key_id" := Json.Text(keyId), "application_key" := Json.Text(appKey), "path_prefix" := Json.Text(pathPrefix),
        "receipt_requested" := Bool(true)]
  }

  /** Those that a Drive transport answers. */
  function DriveAnswer(folderId: string, account: string, pathPrefix: string, permissionId: string): map<string, Json> {
    map["provider" := Json.Text("drive"), "folder_id" := Json.Text(folderId),
        "sa_credentials_json" := Json.Text(account), "path_prefix" := Json.Text(pathPrefix),
        "permission_id" := Json.Text(permissionId),
        "receipt_requested" := Bool(true)]
  }

  /** The row's endpoint says what these fields say, but for the recorded size. */
  predicate Carries(row: ReceivedShare, fields: map<string, Json>) {
    row.cloudEndpoint.Object? && forall name :: name in fields && name != "_file_size" ==>
      name in row.cloudEndpoint.fields && row.cloudEndpoint.fields[name] == fields[name]
  }

  /** With the rclone binary and a conf that can be written, a share with B2 credentials is fetched by a scoped
      transport, whose conf has the key in it. */
  lemma B2AnswerSuffices(row: ReceivedShare, m: Machine, bucket: string, url: string, keyId: string, appKey: string,
                         pathPrefix: string)
    requires Carries(row, B2Answer(bucket, url, keyId, appKey, pathPrefix)) && m.hasBinary && m.write.Written?
    ensures HasScopedTransport(row, true) && Ready(row, m) && Addressable(row, true) && PathPrefix(row) == pathPrefix
    ensures Buildable(row, m.compactJson)
    ensures ConfText(row, m.compactJson) == B2Conf.B2Stanza("arxshare-dl", keyId, appKey)
  {
    hide B2Conf.B2Stanza;
  }

  lemma DriveAnswerSuffices(row: ReceivedShare, m: Machine, folderId: string, account: string, pathPrefix: string,
                            permissionId: string)
    requires Carries(row, DriveAnswer(folderId, account, pathPrefix, permissionId)) && m.hasBinary && m.write.Written?
    ensures HasScopedTransport(row, true) && Addressable(row, true) && (Ready(row, m) <==> m.compactJson(account).Some?)
    ensures m.compactJson(account).Some? ==>
              && Buildable(row, m.compactJson)
              && ConfText(row, m.compactJson) == DriveConf(m.compactJson(account).value, folderId)
  {
    hide DriveConf;
  }

  /** Each embedded field is needed: without it the package is refused. */
  lemma FieldsNeeded(row: ReceivedShare, m: Machine, name: string)
    requires m.hasBinary && m.stagingReady && GetText(row.cloudEndpoint, name).None?
    requires || (Provider(row) == Some("b2") && name in {"key_id", "application_key", "bucket", "path_prefix"})
             || (Provider(row) == Some("drive") && name in {"folder_id", "sa_credentials_json"})
    ensures !Ready(row, m) && EarlyError(Ok(row), m) == InvalidSharePackage
  {
  }

  /** Without the staging directory, or if the conf cannot be written, the cloud operation fails. */
  lemma StagingNeeded(row: ReceivedShare, m: Machine)
    requires || !m.stagingReady
             || (HasScopedTransport(row, m.hasBinary) && Buildable(row, m.compactJson) && !m.write.Written?)
    ensures !m.stagingReady || !Ready(row, m)
    ensures EarlyError(Ok(row), m) == CloudOperation
  {
  }

  /** Without the binary, or with another provider, the recipient's own transport is used, and needs a path prefix;
      without a provider there is none. */
  lemma OwnTransport(row: ReceivedShare, m: Machine)
    requires !m.hasBinary || (Provider(row) != Some("b2") && Provider(row) != Some("drive"))
    ensures !HasScopedTransport(row, m.hasBinary) && (Ready(row, m) <==> GetText(row.cloudEndpoint, "provider").Some?)
    ensures Addressable(row, m.hasBinary) <==>
              GetText(row.cloudEndpoint, "path_prefix").Some? && GetText(row.cloudEndpoint, "path_prefix").value != ""
  {
  }

  /** The chunk files of an imported row, whoever made the package, lie inside the staging directory. */
  lemma SoundRowStaysInStaging(row: ReceivedShare, staging: string, i: nat)
    requires Packages.Sound(row) && i < |row.chunkUuids|
    ensures Components(ChunkPath(staging, row.chunkUuids[i])) == Components(staging) + [row.chunkUuids[i] + ".blob"]
  {
    ChunkStaysInStaging(staging, row.chunkUuids[i]);
  }
}
