/** Share packages: the JSON payload sealed for a recipient, and its import. */
module Packages {
  import opened Aead
  import opened Bytes
  import opened Envelope
  import Hpke
  import opened Store
  import opened Uuid
  import opened Wrappers

  datatype Payload = Payload(
    shareId: string,
    fileId: string,
    fileName: string,
    chunkCount: nat,
    chunkSize: nat,
    chunkUuids: seq<string>,
    fileKey: string,
    senderPublicKey: string,
    cloudEndpoint: Json,
    fileSize: nat,
    expiresAt: Option<int>)

  /** JSON and base64, taken from libraries. */
  datatype Codec = Codec(
    toJson: Payload -> seq<byte>,
    fromJson: seq<byte> -> Option<Payload>,
    toBase64: seq<byte> -> string,
    fromBase64: string -> Option<seq<byte>>)
  {
    /** The encoders have their decoders as left inverses. */
    ghost predicate Inverse() {
      && (forall payload :: fromJson(toJson(payload)) == Some(payload))
      && (forall bytes :: fromBase64(toBase64(bytes)) == Some(bytes))
    }
  }

  /** The payload made from a snapshot; `chunk_uuids.len() as u32` truncates. */
  function PayloadOf(codec: Codec, packageId: string, snapshot: FileShareSnapshot, shareFileKey: Bytes32,
                     ownPublicKey: Bytes32, endpoint: Json, expiresAt: Option<int>): Payload {
    Payload(
      packageId, snapshot.shareFileId, snapshot.fileName,
      |snapshot.chunkUuids| % U32_LIMIT, snapshot.chunkSize, snapshot.chunkUuids,
      codec.toBase64(shareFileKey), codec.toBase64(ownPublicKey),
      endpoint, snapshot.fileSize, expiresAt)
  }

  /** Seals the payload for the recipient. Package id and ephemeral secret are random draws. */
  method CreateSharePackage(p: Primitives, codec: Codec, recipient: Bytes32, expiresAt: Option<int>, endpoint: Json,
                            snapshot: FileShareSnapshot, shareFileKey: Bytes32, ownPublicKey: Bytes32,
                            packageId: string, ephemeral: Bytes32)
    returns (r: Result<seq<byte>>)
    ensures r == Hpke.Sealed(p, recipient, ephemeral,
                   codec.toJson(PayloadOf(codec, packageId, snapshot, shareFileKey, ownPublicKey, endpoint, expiresAt)))
  {
    var payload := PayloadOf(codec, packageId, snapshot, shareFileKey, ownPublicKey, endpoint, expiresAt);
    r := Hpke.Seal(p, recipient, codec.toJson(payload), ephemeral);
  }

  ghost predicate ValidPayload(payload: Payload) {
    && payload.shareId != "" && payload.fileId != "" && payload.fileName != ""
    && payload.chunkCount == |payload.chunkUuids|
    && forall i :: 0 <= i < |payload.chunkUuids| ==> IsUuidV4Str(payload.chunkUuids[i])
  }

  method ValidatePayload(payload: Payload) returns (r: Result<()>)
    ensures r.Ok? <==> ValidPayload(payload)
    ensures r.Err? ==> r.error == InvalidJsonPayload
  {
    if payload.shareId == "" || payload.fileId == "" || payload.fileName == "" {
      return Err(InvalidJsonPayload);
    }
    if payload.chunkCount != |payload.chunkUuids| {
      return Err(InvalidJsonPayload);
    }
    for index := 0 to |payload.chunkUuids|
      invariant forall i :: 0 <= i < index ==> IsUuidV4Str(payload.chunkUuids[i])
    {
      var parsed := ParseStr(payload.chunkUuids[index]);
      if parsed.None? || Version(parsed.value) != 4 {
        return Err(InvalidJsonPayload);
      }
    }
    return Ok(());
  }

  function DecodeFileKey(codec: Codec, encoded: string): (r: Result<Bytes32>) {
    match codec.fromBase64(encoded)
    case None => Err(InvalidJsonPayload)
    case Some(bytes) => if |bytes| == 32 then Ok(bytes) else Err(InvalidFileKeyLength(|bytes|))
  }

  function DecodeSenderPublicKey(codec: Codec, encoded: string): (r: Result<Bytes32>) {
    match codec.fromBase64(encoded)
    case None => Err(InvalidJsonPayload)
    case Some(bytes) => if |bytes| == 32 then Ok(bytes) else Err(InvalidSenderPublicKeyLength(|bytes|))
  }

  /** Endpoint as stored: the size is recorded only when it is positive. */
  function RecordSize(endpoint: Json, fileSize: nat): (r: Result<Json>) {
    if fileSize > 0 then SetField(endpoint, "_file_size", Number(fileSize)) else Ok(endpoint)
  }

  function EndpointStored(endpoint: map<string, Json>, fileSize: nat): map<string, Json> {
    if fileSize > 0 then endpoint["_file_size" := Number(fileSize)] else endpoint
  }

  function RowOf(payload: Payload, sender: Bytes32, wrapped: Bytes72, endpoint: Json, now: int): ReceivedShare {
    ReceivedShare(payload.shareId, sender, payload.fileId, payload.fileName, wrapped, payload.chunkCount,
                  payload.chunkSize, payload.chunkUuids, endpoint, payload.expiresAt, now)
  }

  /** The row that a decoded payload becomes, before it is inserted. */
  ghost function PayloadRow(p: Primitives, codec: Codec, payload: Payload, kek: Bytes32, nonce: Bytes24, now: int)
    : (r: Result<ReceivedShare>)
  {
    if !ValidPayload(payload) then Err(InvalidJsonPayload) else
    match DecodeFileKey(codec, payload.fileKey)
    case Err(e) => Err(e)
    case Ok(fileKey) =>
      match DecodeSenderPublicKey(codec, payload.senderPublicKey)
      case Err(e) => Err(e)
      case Ok(sender) =>
        match ParseStr(payload.fileId)
        case None => Err(InvalidJsonPayload)
        case Some(fileId) =>
          match RecordSize(payload.cloudEndpoint, payload.fileSize)
          case Err(e) => Err(e)
          case Ok(endpoint) => Ok(RowOf(payload, sender, WrappedFileKey(p, fileKey, fileId, kek, nonce), endpoint, now))
  }

  ghost function ImportedRow(p: Primitives, codec: Codec, wire: seq<byte>, recipientSecret: Bytes32, kek: Bytes32,
                             nonce: Bytes24, now: int)
    : (r: Result<ReceivedShare>)
  {
    match Hpke.Opened(p, recipientSecret, wire)
    case Err(e) => Err(e)
    case Ok(plaintext) =>
      match codec.fromJson(plaintext)
      case None => Err(InvalidJsonPayload)
      case Some(payload) => PayloadRow(p, codec, payload, kek, nonce, now)
  }

  /** What every imported row guarantees, whoever made the package: its count is the length of its chunk list, every
      chunk is named by a version 4 UUID, its name is not empty, and its file id is a UUID. */
  predicate Sound(row: ReceivedShare) {
    && row.chunkCount == |row.chunkUuids| && row.fileName != "" && row.shareId != "" && ParseStr(row.fileId).Some?
    && forall i :: 0 <= i < |row.chunkUuids| ==>
         ParseStr(row.chunkUuids[i]).Some? && Version(ParseStr(row.chunkUuids[i]).value) == 4
  }

  /** Whatever opens and decodes to an accepted row yields a sound one, with a key that unwraps. */
  lemma ImportedRowSound(p: Primitives, codec: Codec, wire: seq<byte>, recipientSecret: Bytes32, kek: Bytes32,
                         nonce: Bytes24, now: int)
    ensures var row := ImportedRow(p, codec, wire, recipientSecret, kek, nonce, now);
            row.Ok? ==>
              && Sound(row.value) && row.value.importedAt == now && row.value.fileKeyWrapped[..24] == nonce
              && UnwrappedFileKey(p, row.value.fileKeyWrapped, ParseStr(row.value.fileId).value, kek).Some?
  {
    hide ParseStr, Version;
    var row := ImportedRow(p, codec, wire, recipientSecret, kek, nonce, now);
    if row.Ok? {
      var payload := codec.fromJson(Hpke.Opened(p, recipientSecret, wire).value).value;
      var key, fileId := DecodeFileKey(codec, payload.fileKey).value, ParseStr(payload.fileId).value;
      UnwrapUndoesWrap(p, key, fileId, kek, nonce);
      WrapCarriesNonce(p, key, fileId, kek, nonce);
    }
  }

  /** Which payloads are refused, in the order of the checks, when the rest is in order. */
  lemma PayloadRefused(p: Primitives, codec: Codec, payload: Payload, kek: Bytes32, nonce: Bytes24, now: int)
    ensures var row := PayloadRow(p, codec, payload, kek, nonce, now);
            var key, sender := codec.fromBase64(payload.fileKey), codec.fromBase64(payload.senderPublicKey);
            && (payload.chunkCount != |payload.chunkUuids| || payload.fileName == "" ==> row == Err(InvalidJsonPayload))
            && (ValidPayload(payload) && key.None? ==> row == Err(InvalidJsonPayload))
            && (ValidPayload(payload) && key.Some? && |key.value| != 32 ==>
                row == Err(InvalidFileKeyLength(|key.value|)))
            && (ValidPayload(payload) && key.Some? && |key.value| == 32 && sender.Some? && |sender.value| != 32 ==>
                row == Err(InvalidSenderPublicKeyLength(|sender.value|)))
  {
  }

  /** Recording the size adds one field to an object or to null, panics on anything else, and is skipped for size
      zero. */
  lemma SizeRecorded(endpoint: Json, fileSize: nat)
    ensures endpoint.Object? ==>
              RecordSize(endpoint, fileSize) == Ok(Object(EndpointStored(endpoint.fields, fileSize)))
    ensures endpoint.Null? && fileSize > 0 ==>
              RecordSize(endpoint, fileSize) == Ok(Object(map["_file_size" := Number(fileSize)]))
    ensures !endpoint.Object? && !endpoint.Null? && fileSize > 0 ==> RecordSize(endpoint, fileSize) == Err(Panicked)
    ensures fileSize == 0 ==> RecordSize(endpoint, fileSize) == Ok(endpoint)
  {
  }

  /** The table of received shares. */
  class Inbox {
    var rows: map<string, ReceivedShare>

    constructor ()
      ensures rows == map[]
    {
      rows := map[];
    }

    /** Inserts one row; the id must be a version 4 UUID that is not taken, and the store may fail. */
    method InsertReceivedShare(row: ReceivedShare, storeFails: bool) returns (r: Result<()>)
      modifies this
      ensures r == if !IsUuidV4Str(row.shareId) then Err(InvalidJsonPayload) else if storeFails then Err(Backend)
                   else if row.shareId in old(rows) then Err(ConstraintViolation) else Ok(())
      ensures rows == if r.Ok? then old(rows)[row.shareId := row] else old(rows)
    {
      if !IsUuidV4Str(row.shareId) {
        return Err(InvalidJsonPayload);
      }
      if storeFails {
        return Err(Backend);
      }
      if row.shareId in rows {
        return Err(ConstraintViolation);
      }
      rows := rows[row.shareId := row];
      return Ok(());
    }

    /** Opens, decodes and validates a package and stores the resulting row. */
    method ImportSharePackage(p: Primitives, codec: Codec, wire: seq<byte>, recipientSecret: Bytes32, kek: Bytes32,
                              nonce: Bytes24, now: int, storeFails: bool)
      returns (r: Result<ReceivedShare>)
      modifies this
      ensures var row := ImportedRow(p, codec, wire, recipientSecret, kek, nonce, now);
              r == if row.Err? then row
                   else if !IsUuidV4Str(row.value.shareId) then Err(InvalidJsonPayload)
                   else if storeFails then Err(Backend)
                   else if row.value.shareId in old(rows) then Err(ConstraintViolation) else row
      ensures r.Ok? ==> Sound(r.value) && IsUuidV4Str(r.value.shareId) && r.value.importedAt == now
      ensures rows == if r.Ok? then old(rows)[r.value.shareId := r.value] else old(rows)
    {
      ImportedRowSound(p, codec, wire, recipientSecret, kek, nonce, now);
      var plaintext := Hpke.Open(p, recipientSecret, wire);
      if plaintext.Err? {
        return Err(plaintext.error);
      }
      var decoded := codec.fromJson(plaintext.value);
      if decoded.None? {
        return Err(InvalidJsonPayload);
      }
      var payload := decoded.value;
      var valid := ValidatePayload(payload);
      if valid.Err? {
        return Err(valid.error);
      }
      var fileKey := DecodeFileKey(codec, payload.fileKey);
      if fileKey.Err? {
        return Err(fileKey.error);
      }
      var sender := DecodeSenderPublicKey(codec, payload.senderPublicKey);
      if sender.Err? {
        return Err(sender.error);
      }
      var fileId := ParseStr(payload.fileId);
      if fileId.None? {
        return Err(InvalidJsonPayload);
      }
      var wrapped := WrapFileKey(p, fileKey.value, fileId.value, kek, nonce);
      var endpoint := RecordSize(payload.cloudEndpoint, payload.fileSize);
      if endpoint.Err? {
        return Err(endpoint.error);
      }
      var row := RowOf(payload, sender.value, wrapped, endpoint.value, now);
      var inserted := InsertReceivedShare(row, storeFails);
      if inserted.Err? {
        return Err(inserted.error);
      }
      return Ok(row);
    }
  }

  /** A snapshot as `create_share` builds it. */
  ghost predicate WellFormedSnapshot(snapshot: FileShareSnapshot, shareFileId: Uuid) {
    && snapshot.shareFileId == Hyphenated(shareFileId)
    && forall i :: 0 <= i < |snapshot.chunkUuids| ==> IsUuidV4Str(snapshot.chunkUuids[i])
  }

  /** What the recipient's row says about the file: everything the snapshot says, with the share key
      wrapped for the recipient. */
  ghost predicate RowDescribes(p: Primitives, row: ReceivedShare, snapshot: FileShareSnapshot, shareFileId: Uuid,
                               shareFileKey: Bytes32, kek: Bytes32) {
    && row.fileId == snapshot.shareFileId && row.fileName == snapshot.fileName
    && row.chunkCount == |snapshot.chunkUuids| && row.chunkUuids == snapshot.chunkUuids
    && row.chunkSize == snapshot.chunkSize
    && UnwrappedFileKey(p, row.fileKeyWrapped, shareFileId, kek) == Some(shareFileKey)
    && (snapshot.fileSize > 0 ==> GetNumber(row.cloudEndpoint, "_file_size") == Some(snapshot.fileSize))
  }

  /** A payload made from a snapshot is accepted exactly when the file has a name and its chunk count
      fits a `u32`, and the row then describes the snapshot. */
  lemma PayloadRowDescribes(p: Primitives, codec: Codec, packageId: string, snapshot: FileShareSnapshot,
                            shareFileId: Uuid, shareFileKey: Bytes32, ownPublicKey: Bytes32,
                            endpoint: map<string, Json>, expiresAt: Option<int>,
                            kek: Bytes32, nonce: Bytes24, now: int)
    requires codec.Inverse()
    requires WellFormedSnapshot(snapshot, shareFileId) && packageId != ""
    ensures var payload := PayloadOf(codec, packageId, snapshot, shareFileKey, ownPublicKey, Object(endpoint),
                                     expiresAt);
            var row := PayloadRow(p, codec, payload, kek, nonce, now);
            && (row.Ok? <==> snapshot.fileName != "" && |snapshot.chunkUuids| < U32_LIMIT)
            && (row.Ok? ==>
                && row.value.shareId == packageId && row.value.senderPublicKey == ownPublicKey
                && row.value.expiresAt == expiresAt && row.value.importedAt == now
                && row.value.cloudEndpoint == Object(EndpointStored(endpoint, snapshot.fileSize))
                && RowDescribes(p, row.value, snapshot, shareFileId, shareFileKey, kek))
  {
    var payload := PayloadOf(codec, packageId, snapshot, shareFileKey, ownPublicKey, Object(endpoint), expiresAt);
    PayloadValidity(codec, packageId, snapshot, shareFileId, shareFileKey, ownPublicKey, endpoint, expiresAt);
    if ValidPayload(payload) {
      ParseUndoesHyphenated(shareFileId);
      UnwrapUndoesWrap(p, shareFileKey, shareFileId, kek, nonce);
      var wrapped := WrappedFileKey(p, shareFileKey, shareFileId, kek, nonce);
      var stored := RecordSize(Object(endpoint), snapshot.fileSize).value;
      assert PayloadRow(p, codec, payload, kek, nonce, now) == Ok(RowOf(payload, ownPublicKey, wrapped, stored, now));
    }
  }

  lemma PayloadValidity(codec: Codec, packageId: string, snapshot: FileShareSnapshot, shareFileId: Uuid,
                        shareFileKey: Bytes32, ownPublicKey: Bytes32, endpoint: map<string, Json>,
                        expiresAt: Option<int>)
    requires WellFormedSnapshot(snapshot, shareFileId) && packageId != ""
    ensures ValidPayload(PayloadOf(codec, packageId, snapshot, shareFileKey, ownPublicKey, Object(endpoint),
                                   expiresAt)) <==>
              snapshot.fileName != "" && |snapshot.chunkUuids| < U32_LIMIT
  {
    assert |snapshot.chunkUuids| < U32_LIMIT <==> |snapshot.chunkUuids| % U32_LIMIT == |snapshot.chunkUuids|;
    assert |Hyphenated(shareFileId)| == 36;
  }

  /** Importing what was sealed for this recipient yields the row of the payload that was sealed. */
  lemma ImportUndoesCreate(p: Primitives, codec: Codec, payload: Payload,
                           recipientSecret: Bytes32, ephemeral: Bytes32, kek: Bytes32, nonce: Bytes24, now: int)
    requires codec.Inverse() && Hpke.DhAgrees(p, ephemeral, recipientSecret)
    requires Hpke.Sealed(p, p.publicKey(recipientSecret), ephemeral, codec.toJson(payload)).Ok?
    ensures ImportedRow(p, codec, Hpke.Sealed(p, p.publicKey(recipientSecret), ephemeral, codec.toJson(payload)).value,
                        recipientSecret, kek, nonce, now)
         == PayloadRow(p, codec, payload, kek, nonce, now)
  {
    Hpke.OpenUndoesSeal(p, recipientSecret, ephemeral, codec.toJson(payload));
  }
}
