/** The data path of a share: the sender cuts a file into padded, encrypted chunks, the recipient
    decrypts them in order, joins them and cuts off the padding. */
module DataPath {
  import opened Aead
  import opened Bytes
  import opened Envelope
  import Hpke
  import opened Packages
  import opened Store
  import opened Uuid
  import opened Wrappers

  function Min(a: nat, b: nat): nat {
    if a < b then a else b
  }

  /** One chunk for an empty file, `div_ceil` otherwise. */
  function ChunkCount(size: nat, chunkSize: nat): (count: nat)
    requires chunkSize > 0 || size == 0
    ensures count > 0
  {
    if size == 0 then 1 else
      assert (size + chunkSize - 1) / chunkSize >= 1 by { DivBounds(size + chunkSize - 1, chunkSize); }
      (size + chunkSize - 1) / chunkSize
  }

  lemma DivBounds(a: nat, b: nat)
    requires b > 0
    ensures a / b * b <= a < (a / b + 1) * b
  {
    assert a == a / b * b + a % b;
    assert (a / b + 1) * b == a / b * b + b;
  }

  /** The chunks tile the file: all but the last are full, and the last ends it. */
  lemma ChunksTile(size: nat, chunkSize: nat)
    requires chunkSize > 0 || size == 0
    ensures var count := ChunkCount(size, chunkSize);
            (count - 1) * chunkSize <= size <= count * chunkSize
    ensures size > 0 ==> (ChunkCount(size, chunkSize) - 1) * chunkSize < size
  {
    if size > 0 {
      var count := ChunkCount(size, chunkSize);
      DivBounds(size + chunkSize - 1, chunkSize);
      assert (count + 1) * chunkSize == count * chunkSize + chunkSize;
      assert (count - 1) * chunkSize == count * chunkSize - chunkSize;
    }
  }

  lemma ChunkStart(size: nat, chunkSize: nat, i: nat)
    requires chunkSize > 0 || size == 0
    requires i < ChunkCount(size, chunkSize)
    ensures i * chunkSize <= size
    ensures i + 1 < ChunkCount(size, chunkSize) ==> (i + 1) * chunkSize <= size
    ensures (i + 1) * chunkSize == i * chunkSize + chunkSize
  {
    var count := ChunkCount(size, chunkSize);
    ChunksTile(size, chunkSize);
    MulMonotone(i, count - 1, chunkSize);
    if i + 1 < count {
      MulMonotone(i + 1, count - 1, chunkSize);
    }
    assert (i + 1) * chunkSize == i * chunkSize + chunkSize;
  }

  lemma MulMonotone(a: nat, b: nat, c: nat)
    requires a <= b
    ensures a * c <= b * c
  {
    assert b * c - a * c == (b - a) * c;
    assert (b - a) * c >= 0;
  }

  /** The part of the plaintext that chunk `i` carries. */
  function Slice(plaintext: seq<byte>, chunkSize: nat, i: nat): (s: seq<byte>)
    requires chunkSize > 0 || plaintext == []
    requires i < ChunkCount(|plaintext|, chunkSize)
    ensures |s| <= chunkSize
  {
    ChunkStart(|plaintext|, chunkSize, i);
    plaintext[i * chunkSize..Min((i + 1) * chunkSize, |plaintext|)]
  }

  function PaddedChunk(plaintext: seq<byte>, chunkSize: nat, i: nat): (s: seq<byte>)
    requires chunkSize > 0 || plaintext == []
    requires i < ChunkCount(|plaintext|, chunkSize)
    ensures |s| == chunkSize
  {
    var slice := Slice(plaintext, chunkSize, i);
    slice + Zeros(chunkSize - |slice|)
  }

  /** The first `n` slices joined. */
  function Joined(plaintext: seq<byte>, chunkSize: nat, n: nat): seq<byte>
    requires chunkSize > 0 || plaintext == []
    requires n <= ChunkCount(|plaintext|, chunkSize)
  {
    if n == 0 then [] else Joined(plaintext, chunkSize, n - 1) + Slice(plaintext, chunkSize, n - 1)
  }

  lemma TakeExtend<T>(s: seq<T>, mid: nat, end: nat)
    requires mid <= end <= |s|
    ensures s[..mid] + s[mid..end] == s[..end]
  {
  }

  lemma {:induction false} JoinedIsPrefix(plaintext: seq<byte>, chunkSize: nat, n: nat)
    requires chunkSize > 0 || plaintext == []
    requires n <= ChunkCount(|plaintext|, chunkSize)
    ensures Joined(plaintext, chunkSize, n) == plaintext[..Min(n * chunkSize, |plaintext|)]
  {
    if n == 0 {
      assert n * chunkSize == 0;
    } else {
      var i := n - 1;
      JoinedIsPrefix(plaintext, chunkSize, i);
      ChunkStart(|plaintext|, chunkSize, i);
      TakeExtend(plaintext, i * chunkSize, Min((i + 1) * chunkSize, |plaintext|));
    }
  }

  /** The slices are contiguous and disjoint and cover the file: joined in order they are the file. */
  lemma SlicesPartition(plaintext: seq<byte>, chunkSize: nat)
    requires chunkSize > 0 || plaintext == []
    ensures Joined(plaintext, chunkSize, ChunkCount(|plaintext|, chunkSize)) == plaintext
  {
    var count := ChunkCount(|plaintext|, chunkSize);
    JoinedIsPrefix(plaintext, chunkSize, count);
    ChunksTile(|plaintext|, chunkSize);
    assert plaintext[..|plaintext|] == plaintext;
  }

  /** Blob `i` of a shared file: the padded chunk sealed for its position. The loop index is cast to `u32`. */
  function BlobAt(p: Primitives, key: Bytes32, fileId: Bytes16, plaintext: seq<byte>, chunkSize: nat, i: nat,
                  nonce: Bytes24)
    : (blob: seq<byte>)
    requires chunkSize > 0 || plaintext == []
    requires i < ChunkCount(|plaintext|, chunkSize)
    ensures |blob| == chunkSize + MIN_BLOB_LEN
  {
    SealWire(p, key, nonce, Aad(Chunk(fileId, i % U32_LIMIT)), PaddedChunk(plaintext, chunkSize, i))
  }

  /** A padded chunk, byte by byte: the file from position `i * chunkSize` on, then zeros. */
  lemma PaddedChunkByte(plaintext: seq<byte>, chunkSize: nat, i: nat, j: nat)
    requires chunkSize > 0 || plaintext == []
    requires i < ChunkCount(|plaintext|, chunkSize) && j < chunkSize
    ensures PaddedChunk(plaintext, chunkSize, i)[j] ==
            if i * chunkSize + j < |plaintext| then plaintext[i * chunkSize + j] else 0
  {
    ChunkStart(|plaintext|, chunkSize, i);
    var slice := Slice(plaintext, chunkSize, i);
    assert j < |slice| ==> slice[j] == plaintext[i * chunkSize + j];
  }

  /** Blob `i`, byte by byte: the drawn nonce; the padded chunk combined with the key stream of the share key and that
      nonce from block 1 on; the tag over the share's file id, the position and the ciphertext. */
  lemma BlobLayout(p: Primitives, key: Bytes32, fileId: Bytes16, plaintext: seq<byte>, chunkSize: nat, i: nat,
                   nonce: Bytes24)
    requires chunkSize > 0 || plaintext == []
    requires i < ChunkCount(|plaintext|, chunkSize) && i < U32_LIMIT
    ensures var blob := BlobAt(p, key, fileId, plaintext, chunkSize, i, nonce);
            && |blob| == 24 + chunkSize + 16 && blob[..24] == nonce
            && (forall j :: 0 <= j < chunkSize ==>
                  blob[24 + j] == Xor(PaddedChunk(plaintext, chunkSize, i)[j], p.block(key, nonce, 1 + j / 64)[j % 64]))
            && blob[24 + chunkSize..] == p.mac(key, nonce, fileId + Be32(i), blob[24..24 + chunkSize])
  {
    assert i % U32_LIMIT == i;
    WireLayout(p, key, nonce, Aad(Chunk(fileId, i)), PaddedChunk(plaintext, chunkSize, i));
  }

  /** The blob carries its nonce in front. */
  lemma BlobCarriesNonce(p: Primitives, key: Bytes32, fileId: Bytes16, plaintext: seq<byte>, chunkSize: nat, i: nat,
                         nonce: Bytes24)
    requires chunkSize > 0 || plaintext == []
    requires i < ChunkCount(|plaintext|, chunkSize)
    ensures BlobAt(p, key, fileId, plaintext, chunkSize, i, nonce)[..24] == nonce
  {
    WireLayout(p, key, nonce, Aad(Chunk(fileId, i % U32_LIMIT)), PaddedChunk(plaintext, chunkSize, i));
  }

  /** A `u32` chunk is never too long for the cipher. */
  lemma ChunkLengthAccepted(chunkSize: nat)
    requires chunkSize < U32_LIMIT
    ensures LengthAccepted(chunkSize)
  {
    assert chunkSize / BLOCK_LEN <= U32_LIMIT / BLOCK_LEN;
  }

  /** One turn of the sender's chunk loop: zero buffer, copy of the slice, encryption in place. */
  method EncryptSlice(p: Primitives, key: Bytes32, fileId: Bytes16, plaintext: seq<byte>, chunkSize: nat, index: nat,
                      nonce: Bytes24)
    returns (r: Result<seq<byte>>)
    requires chunkSize > 0 || plaintext == []
    requires chunkSize < U32_LIMIT
    requires index < ChunkCount(|plaintext|, chunkSize)
    ensures r == Ok(BlobAt(p, key, fileId, plaintext, chunkSize, index, nonce))
  {
    ChunkStart(|plaintext|, chunkSize, index);
    var start := index * chunkSize;
    var end := Min((index + 1) * chunkSize, |plaintext|);
    var padded := new byte[chunkSize](_ => 0);
    CopyInto(padded, 0, plaintext[start..end]);
    assert padded[..] == PaddedChunk(plaintext, chunkSize, index);
    ChunkLengthAccepted(chunkSize);
    r := EncryptChunk(p, padded, key, fileId, index % U32_LIMIT, nonce);
  }

  /** How many bytes of decrypted chunk `i` the recipient keeps. */
  function KeptBytes(fileSize: nat, chunkCount: nat, chunkSize: nat, i: nat, paddedLength: nat): nat {
    if i + 1 == chunkCount then
      Min(if fileSize > i * chunkSize then fileSize - i * chunkSize else 0, paddedLength)
    else
      chunkSize
  }

  /** What chunk `i` of a received file contributes. A chunk too short for its slice is a panic. */
  function ReceivedPiece(p: Primitives, fileId: Bytes16, key: Bytes32, fileSize: nat, chunkSize: nat,
                         chunkUuids: seq<string>, staged: map<string, seq<byte>>, i: nat): (r: Result<seq<byte>>)
    requires i < |chunkUuids|
  {
    if chunkUuids[i] !in staged then Err(Io) else
    match OpenChunk(p, staged[chunkUuids[i]], key, fileId, i % U32_LIMIT)
    case Err(e) => Err(e)
    case Ok(padded) =>
      var n := KeptBytes(fileSize, |chunkUuids|, chunkSize, i, |padded|);
      if n <= |padded| then Ok(padded[..n]) else Err(Panicked)
  }

  /** The first `n` pieces joined, or the first error. */
  function ReceivedPrefix(p: Primitives, fileId: Bytes16, key: Bytes32, fileSize: nat, chunkSize: nat,
                          chunkUuids: seq<string>, staged: map<string, seq<byte>>, n: nat): (r: Result<seq<byte>>)
    requires n <= |chunkUuids|
  {
    if n == 0 then Ok([]) else
    match ReceivedPrefix(p, fileId, key, fileSize, chunkSize, chunkUuids, staged, n - 1)
    case Err(e) => Err(e)
    case Ok(before) =>
      match ReceivedPiece(p, fileId, key, fileSize, chunkSize, chunkUuids, staged, n - 1)
      case Err(e) => Err(e)
      case Ok(piece) => Ok(before + piece)
  }

  lemma {:induction false} ErrorStops(p: Primitives, fileId: Bytes16, key: Bytes32, fileSize: nat, chunkSize: nat,
                                      chunkUuids: seq<string>, staged: map<string, seq<byte>>, n: nat, m: nat)
    requires n <= m <= |chunkUuids|
    requires ReceivedPrefix(p, fileId, key, fileSize, chunkSize, chunkUuids, staged, n).Err?
    ensures ReceivedPrefix(p, fileId, key, fileSize, chunkSize, chunkUuids, staged, m)
         == ReceivedPrefix(p, fileId, key, fileSize, chunkSize, chunkUuids, staged, n)
    decreases m
  {
    if n < m {
      ErrorStops(p, fileId, key, fileSize, chunkSize, chunkUuids, staged, n, m - 1);
    }
  }

  /** Decrypts the staged blobs in order and returns the bytes written to the destination; `staged`
      maps a blob name to the content of `<name>.blob`. */
  method DecryptReceivedShareBlobs(p: Primitives, fileId: Bytes16, key: Bytes32, fileSize: nat, chunkCount: nat,
                                   chunkSize: nat, chunkUuids: seq<string>, staged: map<string, seq<byte>>)
    returns (r: Result<seq<byte>>)
    ensures |chunkUuids| != chunkCount ==> r == Err(ConstraintViolation)
    ensures |chunkUuids| == chunkCount ==>
              r == ReceivedPrefix(p, fileId, key, fileSize, chunkSize, chunkUuids, staged, |chunkUuids|)
  {
    hide OpenChunk, KeptBytes;
    if |chunkUuids| != chunkCount {
      return Err(ConstraintViolation);
    }
    var written: seq<byte> := [];
    for index := 0 to |chunkUuids|
      invariant ReceivedPrefix(p, fileId, key, fileSize, chunkSize, chunkUuids, staged, index) == Ok(written)
    {
      var name := chunkUuids[index];
      if name !in staged {
        ErrorStops(p, fileId, key, fileSize, chunkSize, chunkUuids, staged, index + 1, |chunkUuids|);
        return Err(Io);
      }
      var blob := staged[name];
      var verified := VerifyChecksum(p, blob, p.hash(blob));
      var padded := DecryptChunk(p, verified.value, key, fileId, index % U32_LIMIT);
      if padded.Err? {
        ErrorStops(p, fileId, key, fileSize, chunkSize, chunkUuids, staged, index + 1, |chunkUuids|);
        return Err(padded.error);
      }
      var bytesToWrite := KeptBytes(fileSize, chunkCount, chunkSize, index, |padded.value|);
      if bytesToWrite > |padded.value| {
        ErrorStops(p, fileId, key, fileSize, chunkSize, chunkUuids, staged, index + 1, |chunkUuids|);
        return Err(Panicked);
      }
      written := written + padded.value[..bytesToWrite];
    }
    return Ok(written);
  }

  /** Those blobs that are staged are the ones the sender made for this file. */
  ghost predicate PartlyStaged(p: Primitives, key: Bytes32, fileId: Bytes16, plaintext: seq<byte>, chunkSize: nat,
                               nonces: seq<Bytes24>, chunkUuids: seq<string>, staged: map<string, seq<byte>>)
    requires chunkSize > 0 || plaintext == []
  {
    && |nonces| == |chunkUuids| == ChunkCount(|plaintext|, chunkSize)
    && forall i :: 0 <= i < |chunkUuids| && chunkUuids[i] in staged ==>
         staged[chunkUuids[i]] == BlobAt(p, key, fileId, plaintext, chunkSize, i, nonces[i])
  }

  /** They are all staged. */
  ghost predicate StagedFrom(p: Primitives, key: Bytes32, fileId: Bytes16, plaintext: seq<byte>, chunkSize: nat,
                             nonces: seq<Bytes24>, chunkUuids: seq<string>, staged: map<string, seq<byte>>)
    requires chunkSize > 0 || plaintext == []
  {
    && PartlyStaged(p, key, fileId, plaintext, chunkSize, nonces, chunkUuids, staged)
    && forall i :: 0 <= i < |chunkUuids| ==> chunkUuids[i] in staged
  }

  lemma PieceOpens(p: Primitives, key: Bytes32, fileId: Bytes16, plaintext: seq<byte>, chunkSize: nat,
                   nonces: seq<Bytes24>, chunkUuids: seq<string>, staged: map<string, seq<byte>>, i: nat)
    requires chunkSize > 0 || plaintext == []
    requires chunkSize < U32_LIMIT
    requires PartlyStaged(p, key, fileId, plaintext, chunkSize, nonces, chunkUuids, staged)
    requires i < |chunkUuids| && chunkUuids[i] in staged
    ensures OpenChunk(p, staged[chunkUuids[i]], key, fileId, i % U32_LIMIT) == Ok(PaddedChunk(plaintext, chunkSize, i))
  {
    ChunkLengthAccepted(chunkSize);
    OpenUndoesSeal(p, key, nonces[i], Aad(Chunk(fileId, i % U32_LIMIT)), PaddedChunk(plaintext, chunkSize, i));
  }

  lemma PieceIsSlice(p: Primitives, key: Bytes32, fileId: Bytes16, plaintext: seq<byte>, chunkSize: nat,
                     nonces: seq<Bytes24>, chunkUuids: seq<string>, staged: map<string, seq<byte>>, i: nat)
    requires chunkSize > 0 || plaintext == []
    requires chunkSize < U32_LIMIT
    requires PartlyStaged(p, key, fileId, plaintext, chunkSize, nonces, chunkUuids, staged)
    requires i < |chunkUuids| && chunkUuids[i] in staged
    ensures ReceivedPiece(p, fileId, key, |plaintext|, chunkSize, chunkUuids, staged, i)
         == Ok(Slice(plaintext, chunkSize, i))
  {
    PieceOpens(p, key, fileId, plaintext, chunkSize, nonces, chunkUuids, staged, i);
    ChunkStart(|plaintext|, chunkSize, i);
    ChunksTile(|plaintext|, chunkSize);
    var slice, padded := Slice(plaintext, chunkSize, i), PaddedChunk(plaintext, chunkSize, i);
    assert KeptBytes(|plaintext|, |chunkUuids|, chunkSize, i, |padded|) == |slice|;
    assert padded[..|slice|] == slice;
  }

  lemma {:induction false} PrefixIsJoined(p: Primitives, key: Bytes32, fileId: Bytes16, plaintext: seq<byte>,
                                          chunkSize: nat, nonces: seq<Bytes24>, chunkUuids: seq<string>,
                                          staged: map<string, seq<byte>>, n: nat)
    requires chunkSize > 0 || plaintext == []
    requires chunkSize < U32_LIMIT
    requires PartlyStaged(p, key, fileId, plaintext, chunkSize, nonces, chunkUuids, staged)
    requires n <= |chunkUuids| && forall i :: 0 <= i < n ==> chunkUuids[i] in staged
    ensures ReceivedPrefix(p, fileId, key, |plaintext|, chunkSize, chunkUuids, staged, n)
         == Ok(Joined(plaintext, chunkSize, n))
  {
    if n > 0 {
      PrefixIsJoined(p, key, fileId, plaintext, chunkSize, nonces, chunkUuids, staged, n - 1);
      PieceIsSlice(p, key, fileId, plaintext, chunkSize, nonces, chunkUuids, staged, n - 1);
    }
  }

  /** One missing blob makes the whole download fail. */
  lemma {:induction false} MissingBlobStops(p: Primitives, key: Bytes32, fileId: Bytes16, plaintext: seq<byte>,
                                            chunkSize: nat, nonces: seq<Bytes24>, chunkUuids: seq<string>,
                                            staged: map<string, seq<byte>>, missing: nat, n: nat)
    requires chunkSize > 0 || plaintext == []
    requires chunkSize < U32_LIMIT
    requires PartlyStaged(p, key, fileId, plaintext, chunkSize, nonces, chunkUuids, staged)
    requires missing < n <= |chunkUuids| && chunkUuids[missing] !in staged
    ensures ReceivedPrefix(p, fileId, key, |plaintext|, chunkSize, chunkUuids, staged, n) == Err(Io)
    decreases n
  {
    if earlier: nat :| earlier < n - 1 && chunkUuids[earlier] !in staged {
      MissingBlobStops(p, key, fileId, plaintext, chunkSize, nonces, chunkUuids, staged, earlier, n - 1);
    } else {
      PrefixIsJoined(p, key, fileId, plaintext, chunkSize, nonces, chunkUuids, staged, n - 1);
    }
  }

  /** With the true file size the recipient reassembles the file, for every file and chunk size. */
  lemma ReassemblyUndoesChunking(p: Primitives, key: Bytes32, fileId: Bytes16, plaintext: seq<byte>, chunkSize: nat,
                                 nonces: seq<Bytes24>, chunkUuids: seq<string>, staged: map<string, seq<byte>>)
    requires chunkSize > 0 || plaintext == []
    requires chunkSize < U32_LIMIT
    requires StagedFrom(p, key, fileId, plaintext, chunkSize, nonces, chunkUuids, staged)
    ensures ReceivedPrefix(p, fileId, key, |plaintext|, chunkSize, chunkUuids, staged, |chunkUuids|) == Ok(plaintext)
  {
    PrefixIsJoined(p, key, fileId, plaintext, chunkSize, nonces, chunkUuids, staged, |chunkUuids|);
    SlicesPartition(plaintext, chunkSize);
  }

  /** The size the recipient works with: the recorded one, else the padded total. */
  function SizeOf(row: ReceivedShare): nat {
    match GetNumber(row.cloudEndpoint, "_file_size")
    case Some(n) => n
    case None => row.chunkCount * row.chunkSize
  }

  /** From a stored row and the staged blobs to the file. */
  function Downloaded(p: Primitives, row: ReceivedShare, kek: Bytes32, staged: map<string, seq<byte>>)
    : (r: Result<seq<byte>>)
  {
    match ParseStr(row.fileId)
    case None => Err(Backend)
    case Some(fileId) =>
      match UnwrappedFileKey(p, row.fileKeyWrapped, fileId, kek)
      case None => Err(Backend)
      case Some(key) =>
        if |row.chunkUuids| != row.chunkCount || |key| != 32 then Err(ConstraintViolation)
        else ReceivedPrefix(p, fileId, key, SizeOf(row), row.chunkSize, row.chunkUuids, staged, |row.chunkUuids|)
  }

  /** A snapshot records a file cut into chunks under `key`. */
  ghost predicate SnapshotOf(snapshot: FileShareSnapshot, shareFileId: Uuid, plaintext: seq<byte>, chunkSize: nat) {
    && WellFormedSnapshot(snapshot, shareFileId)
    && snapshot.chunkSize == chunkSize && snapshot.fileSize == |plaintext|
  }

  /** The padding of an empty file is not cut off: its size is not recorded. */
  lemma EmptyFileIsPadding(p: Primitives, key: Bytes32, fileId: Bytes16, chunkSize: nat,
                           nonces: seq<Bytes24>, chunkUuids: seq<string>, staged: map<string, seq<byte>>)
    requires chunkSize < U32_LIMIT
    requires StagedFrom(p, key, fileId, [], chunkSize, nonces, chunkUuids, staged)
    ensures ReceivedPrefix(p, fileId, key, chunkSize, chunkSize, chunkUuids, staged, 1) == Ok(Zeros(chunkSize))
  {
    PieceOpens(p, key, fileId, [], chunkSize, nonces, chunkUuids, staged, 0);
    assert PaddedChunk([], chunkSize, 0) == Zeros(chunkSize);
    assert Zeros(chunkSize)[..chunkSize] == Zeros(chunkSize);
    assert ReceivedPrefix(p, fileId, key, chunkSize, chunkSize, chunkUuids, staged, 0) == Ok([]);
  }

  /** A row that describes a snapshot, with the snapshot's blobs staged, downloads to the file exactly
      when the file is not empty or chunks are empty; an empty file comes back as one chunk of zeros. */
  lemma DownloadFromRow(p: Primitives, row: ReceivedShare, snapshot: FileShareSnapshot, shareFileId: Uuid, key: Bytes32,
                        plaintext: seq<byte>, chunkSize: nat, nonces: seq<Bytes24>, kek: Bytes32,
                        staged: map<string, seq<byte>>)
    requires chunkSize > 0 || plaintext == []
    requires chunkSize < U32_LIMIT
    requires SnapshotOf(snapshot, shareFileId, plaintext, chunkSize)
    requires StagedFrom(p, key, shareFileId, plaintext, chunkSize, nonces, snapshot.chunkUuids, staged)
    requires RowDescribes(p, row, snapshot, shareFileId, key, kek)
    requires plaintext == [] ==> GetNumber(row.cloudEndpoint, "_file_size").None?
    ensures Downloaded(p, row, kek, staged) == Ok(if plaintext == [] then Zeros(chunkSize) else plaintext)
    ensures Downloaded(p, row, kek, staged) == Ok(plaintext) <==> plaintext != [] || chunkSize == 0
  {
    ParseUndoesHyphenated(shareFileId);
    if plaintext == [] {
      EmptyFileIsPadding(p, key, shareFileId, chunkSize, nonces, row.chunkUuids, staged);
      assert row.chunkCount == 1;
    } else {
      ReassemblyUndoesChunking(p, key, shareFileId, plaintext, chunkSize, nonces, row.chunkUuids, staged);
    }
  }

  /** With a blob missing, the download of a non-empty file fails. */
  lemma MissingBlobFailsDownload(p: Primitives, row: ReceivedShare, snapshot: FileShareSnapshot, shareFileId: Uuid,
                                 key: Bytes32, plaintext: seq<byte>, chunkSize: nat, nonces: seq<Bytes24>, kek: Bytes32,
                                 staged: map<string, seq<byte>>, missing: nat)
    requires chunkSize > 0 && plaintext != []
    requires chunkSize < U32_LIMIT
    requires SnapshotOf(snapshot, shareFileId, plaintext, chunkSize)
    requires PartlyStaged(p, key, shareFileId, plaintext, chunkSize, nonces, snapshot.chunkUuids, staged)
    requires RowDescribes(p, row, snapshot, shareFileId, key, kek)
    requires missing < |snapshot.chunkUuids| && snapshot.chunkUuids[missing] !in staged
    ensures Downloaded(p, row, kek, staged) == Err(Io)
  {
    ParseUndoesHyphenated(shareFileId);
    MissingBlobStops(p, key, shareFileId, plaintext, chunkSize, nonces, row.chunkUuids, staged, missing,
                     |row.chunkUuids|);
  }

  /** Chunk, pad, encrypt, package and seal; then open, validate, import, unwrap, decrypt, join and cut:
      whenever sealing succeeds the import succeeds exactly when the file has a name and its chunk count
      fits a `u32`, and the download is then the file, except that an empty file comes back as one chunk
      of zeros. */
  lemma ShareRoundTrip(p: Primitives, codec: Codec, plaintext: seq<byte>, chunkSize: nat, nonces: seq<Bytes24>,
                       snapshot: FileShareSnapshot, shareFileId: Uuid, key: Bytes32, staged: map<string, seq<byte>>,
                       packageId: string, ownPublicKey: Bytes32, endpoint: map<string, Json>, expiresAt: Option<int>,
                       recipientSecret: Bytes32, ephemeral: Bytes32, kek: Bytes32, nonce: Bytes24, now: int)
    requires chunkSize > 0 || plaintext == []
    requires chunkSize < U32_LIMIT
    requires SnapshotOf(snapshot, shareFileId, plaintext, chunkSize)
    requires StagedFrom(p, key, shareFileId, plaintext, chunkSize, nonces, snapshot.chunkUuids, staged)
    requires codec.Inverse() && Hpke.DhAgrees(p, ephemeral, recipientSecret)
    requires packageId != "" && (plaintext == [] ==> "_file_size" !in endpoint)
    ensures var payload := PayloadOf(codec, packageId, snapshot, key, ownPublicKey, Object(endpoint), expiresAt);
            var wire := Hpke.Sealed(p, p.publicKey(recipientSecret), ephemeral, codec.toJson(payload));
            wire.Ok? ==>
              var row := ImportedRow(p, codec, wire.value, recipientSecret, kek, nonce, now);
              && (row.Ok? <==> snapshot.fileName != "" && |snapshot.chunkUuids| < U32_LIMIT)
              && (row.Ok? ==>
                  Downloaded(p, row.value, kek, staged) == Ok(if plaintext == [] then Zeros(chunkSize) else plaintext))
  {
    var payload := PayloadOf(codec, packageId, snapshot, key, ownPublicKey, Object(endpoint), expiresAt);
    var wire := Hpke.Sealed(p, p.publicKey(recipientSecret), ephemeral, codec.toJson(payload));
    if wire.Ok? {
      ImportUndoesCreate(p, codec, payload, recipientSecret, ephemeral, kek, nonce, now);
      PayloadRowDescribes(p, codec, packageId, snapshot, shareFileId, key, ownPublicKey, endpoint, expiresAt, kek,
                          nonce, now);
      var row := PayloadRow(p, codec, payload, kek, nonce, now);
      if row.Ok? {
        DownloadFromRow(p, row.value, snapshot, shareFileId, key, plaintext, chunkSize, nonces, kek, staged);
      }
    }
  }

  /** Where a staged blob came from: sealed under some key for some position of some file. */
  datatype Origin = Origin(key: Bytes32, fileId: Bytes16, index: nat, nonce: Bytes24, content: seq<byte>)

  ghost predicate MadeAs(p: Primitives, blob: seq<byte>, o: Origin) {
    && o.index < U32_LIMIT && LengthAccepted(|o.content|)
    && blob == SealWire(p, o.key, o.nonce, Aad(Chunk(o.fileId, o.index)), o.content)
  }

  /** If any staged blob was made under another key, for another file or for another position, the
      recipient gets an error, unless the tag function collides on exactly those two contexts. */
  lemma MisplacedBlobRejected(p: Primitives, fileId: Bytes16, key: Bytes32, fileSize: nat, chunkSize: nat,
                              chunkUuids: seq<string>, staged: map<string, seq<byte>>, i: nat, o: Origin)
    requires i < |chunkUuids| < U32_LIMIT
    requires chunkUuids[i] in staged && MadeAs(p, staged[chunkUuids[i]], o)
    requires (o.key, o.fileId, o.index) != (key, fileId, i)
    requires !TagCollision(p, o.nonce, CipherBlocks(p, o.key, o.nonce, 1, o.content),
                           o.key, Chunk(o.fileId, o.index), key, Chunk(fileId, i))
    ensures ReceivedPrefix(p, fileId, key, fileSize, chunkSize, chunkUuids, staged, |chunkUuids|).Err?
  {
    OpensElsewhereOnlyByCollision(p, o.nonce, o.content, o.key, Chunk(o.fileId, o.index), key, Chunk(fileId, i));
    assert i % U32_LIMIT == i;
    assert ReceivedPiece(p, fileId, key, fileSize, chunkSize, chunkUuids, staged, i).Err?;
    assert ReceivedPrefix(p, fileId, key, fileSize, chunkSize, chunkUuids, staged, i + 1).Err?;
    ErrorStops(p, fileId, key, fileSize, chunkSize, chunkUuids, staged, i + 1, |chunkUuids|);
  }

  /** Without a recorded size no byte of any full chunk is cut off. */
  lemma UncutWithoutSize(row: ReceivedShare, i: nat)
    requires GetNumber(row.cloudEndpoint, "_file_size").None? && i < row.chunkCount
    ensures KeptBytes(SizeOf(row), row.chunkCount, row.chunkSize, i, row.chunkSize) == row.chunkSize
  {
    assert row.chunkCount * row.chunkSize - (row.chunkCount - 1) * row.chunkSize == row.chunkSize;
  }
}
