/** The records that the sharing layer persists, and the JSON values they embed. */
module Store {
  import opened Bytes
  import opened Wrappers

  datatype Json =
    | Null
    | Bool(bool)
    | Number(number: nat)
    | Text(text: string)
    | List(items: seq<Json>)
    | Object(fields: map<string, Json>)

  /** `value["name"] = field`: inserts into an object, turns null into an object, panics otherwise. */
  function SetField(value: Json, name: string, field: Json): (r: Result<Json>) {
    match value
    case Object(fields) => Ok(Object(fields[name := field]))
    case Null => Ok(Object(map[name := field]))
    case _ => Err(Panicked)
  }

  /** `value.get("name").and_then(as_u64)` */
  function GetNumber(value: Json, name: string): Option<nat> {
    if value.Object? && name in value.fields && value.fields[name].Number?
    then Some(value.fields[name].number) else None
  }

  /** A row of the `shares` table. */
  datatype ShareRecord = ShareRecord(
    shareId: string,
    fileId: string,
    contactId: string,
    fileShareId: string,
    cloudPath: string,
    createdAt: int,
    expiresAt: Option<int>,
    revokedAt: Option<int>,
    downloadKeyId: Option<string>,
    downloadFolderId: Option<string>,
    receiptRequested: bool,
    receiptReceivedAt: Option<int>)

  /** A row of the `file_shares` table: the re-encrypted layout of one shared file version. */
  datatype FileShareSnapshot = FileShareSnapshot(
    fileShareId: string,
    shareFileId: string,
    shareFileKeyWrapped: Bytes72,
    chunkUuids: seq<string>,
    chunkSize: nat,
    fileSize: nat,
    fileName: string,
    createdAt: int)

  /** A row of the `received_shares` table. */
  datatype ReceivedShare = ReceivedShare(
    shareId: string,
    senderPublicKey: Bytes32,
    fileId: string,
    fileName: string,
    fileKeyWrapped: Bytes72,
    chunkCount: nat,
    chunkSize: nat,
    chunkUuids: seq<string>,
    cloudEndpoint: Json,
    expiresAt: Option<int>,
    importedAt: int)
}
