/** `create_share` and `revoke_share` over the three stores, with the outcome of every cloud and
    store call chosen by the environment. */
module ShareService {
  import opened Bytes
  import opened CloudPaths
  import opened DataPath
  import opened Envelope
  import Hpke
  import opened Packages
  import opened ShareInvariant
  import opened ShareRuns
  import opened ShareState
  import opened Store
  import opened Uuid
  import opened Wrappers

  /** A call succeeds, fails without effect, or takes effect although the caller sees an error. */
  datatype Outcome = Done | Refused | Lost

  /** Outcomes inside `build_new_file_share`, per chunk: the staging write, the upload, the rollback delete. */
  datatype BuildFaults = BuildFaults(staging: nat -> bool, upload: nat -> Outcome, rollback: nat -> Outcome) {
    predicate Passes(i: nat) {
      !staging(i) && upload(i).Done?
    }
  }

  /** The first of `n` chunks that fails, or `n` if none does. */
  ghost function FirstFailure(faults: BuildFaults, n: nat): (k: nat)
    ensures k <= n && (forall i :: 0 <= i < k ==> faults.Passes(i)) && (k < n ==> !faults.Passes(k))
  {
    if n == 0 then 0
    else
      var k := FirstFailure(faults, n - 1);
      if k == n - 1 && faults.Passes(k) then n else k
  }

  /** It is the only such chunk. */
  lemma FirstFailureIs(faults: BuildFaults, n: nat, k: nat)
    requires k <= n && (forall i :: 0 <= i < k ==> faults.Passes(i)) && (k < n ==> !faults.Passes(k))
    ensures k == FirstFailure(faults, n)
  {
    var first := FirstFailure(faults, n);
    assert k < first ==> faults.Passes(k);
  }

  /** What the chunk loop is to do: names, cloud paths and blobs in order. */
  datatype UploadPlan = UploadPlan(names: seq<string>, paths: seq<Path>, blobs: seq<seq<byte>>) {
    ghost predicate Shaped() {
      |names| == |paths| == |blobs| && Distinct(paths)
    }

    ghost predicate Follows(w: World, f: string, file: VaultFile, d: Draws, i: nat)
      requires Shaped()
    {
      && file.Valid() && d.Cover(file) && i < |d.blobNames| && i < |paths|
      && names[i] == Hyphenated(d.blobNames[i]) && paths[i] == BlobPath(f, names[i])
      && blobs[i] == BlobAt(w.p, d.shareKey, d.shareFileId, file.plaintext, file.chunkSize, i, d.nonces[i])
    }
  }

  datatype Credentials =
    | Scoped(fields: map<string, Json>)
    | Unscoped
    | Unsupported
    | CredentialsFailed

  datatype CreateFaults = CreateFaults(
    listFails: bool, readFails: bool, build: BuildFaults, insertSnapshot: Outcome,
    credentials: Credentials, receiptFolders: set<string>, contact: Option<Bytes32>, ownKeyFails: bool,
    insertRow: Outcome)

  datatype RevokeFaults = RevokeFaults(
    getFails: bool, listFails: bool, blobsFail: bool, delete: nat -> Outcome, setRow: Outcome, dropSnapshot: Outcome)

  datatype CreateOutput = CreateOutput(shareId: string, wireBytes: seq<byte>)

  const RECEIPT_BLOB_NAME := "receipt.blob"
  const RECEIPT_PLACEHOLDER: seq<byte> := Ascii("ARX_RECEIPT_PLACEHOLDER_V1")

  /** Blobs that stay behind when chunk `k` fails: earlier ones whose rollback delete was refused, and
      the failing one if its upload took effect although it was reported as failed. */
  ghost function LeftIndices(faults: BuildFaults, k: nat): set<nat> {
    (set i | i in Below(k) && faults.rollback(i).Refused?) + LostAt(faults, k)
  }

  ghost function LostAt(faults: BuildFaults, k: nat): set<nat> {
    if !faults.staging(k) && faults.upload(k).Lost? then {k} else {}
  }

  /** The cloud after chunk `k` failed; it is as before exactly when nothing stays behind. */
  ghost predicate LeftBehind(before: Cloud, cloud: Cloud, plan: UploadPlan, faults: BuildFaults, k: nat)
    requires plan.Shaped() && k < |plan.paths|
  {
    && cloud == before + Picked(plan.paths, plan.blobs, LeftIndices(faults, k))
    && (cloud == before <==> LeftIndices(faults, k) == {})
  }

  /** A rollback that leaves a blob: the second upload is refused, and so is the delete of the first blob. */
  lemma RollbackCanFail()
    ensures var faults := BuildFaults(_ => false, i => if i == 0 then Done else Refused, _ => Refused);
            FirstFailure(faults, 2) == 1 && LeftIndices(faults, 1) == {0}
  {
    var faults := BuildFaults(_ => false, i => if i == 0 then Done else Refused, _ => Refused);
    FirstFailureIs(faults, 2, 1);
    assert 0 in Below(1);
    assert forall i :: i in LeftIndices(faults, 1) ==> i == 0;
  }

  /** During rollback: the deletes of the first `j` of `k` uploaded blobs are over. */
  ghost function Remaining(faults: BuildFaults, j: nat, k: nat, extra: set<nat>): set<nat> {
    (set i | i in Below(k) && (j <= i || faults.rollback(i).Refused?)) + extra
  }

  lemma RemainingStep(faults: BuildFaults, j: nat, k: nat, extra: set<nat>)
    requires j < k && j !in extra
    ensures Remaining(faults, j + 1, k, extra)
         == if faults.rollback(j).Refused? then Remaining(faults, j, k, extra) else Remaining(faults, j, k, extra) - {j}
  {
  }

  /** What one upload does to the set of filled paths. */
  lemma UploadStep(faults: BuildFaults, before: Cloud, cloud: Cloud, cloud': Cloud, plan: UploadPlan, k: nat)
    requires plan.Shaped() && k < |plan.paths| && Filled(before, cloud, plan.paths, plan.blobs, Below(k))
    requires cloud' == if faults.staging(k) || faults.upload(k).Refused? then cloud
                       else cloud[plan.paths[k] := plan.blobs[k]]
    ensures Filled(before, cloud', plan.paths, plan.blobs,
                   if faults.Passes(k) then Below(k + 1) else Below(k) + LostAt(faults, k))
  {
    assert Below(k) + {} == Below(k) && Below(k + 1) == Below(k) + {k};
    FilledMore(before, cloud, plan.paths, plan.blobs, Below(k), k);
  }

  lemma FreshPathsAbsent(cloud: Cloud, used: set<string>, f: string, v: SharedVersion)
    requires PathsOk(cloud, used) && IsIdText(f) && f !in used
    ensures forall i :: 0 <= i < |PathsOf(f, v)| ==> PathsOf(f, v)[i] !in cloud
  {
    forall i | 0 <= i < |PathsOf(f, v)|
      ensures PathsOf(f, v)[i] !in cloud
    {
      BlobPathUnder(f, v.snapshot.chunkUuids[i]);
    }
  }

  ghost function PlanOf(f: string, v: SharedVersion): (plan: UploadPlan)
    requires v.Shaped()
    ensures plan.Shaped()
  {
    PathsDistinct(f, v);
    UploadPlan(v.snapshot.chunkUuids, PathsOf(f, v), v.blobs)
  }

  /** The plan for a new version: its paths are free, and each entry is what the loop will make. */
  lemma PlanReady(w: World, req: Request, file: VaultFile, d: Draws, cloud: Cloud, used: set<string>)
    requires file.Valid() && d.Cover(file) && d.Fresh(used) && PathsOk(cloud, used)
    ensures var f, v := Hyphenated(d.fileShareId), NewVersion(w, req, file, d);
            && v.Shaped() && |v.blobs| == |d.blobNames| == |PlanOf(f, v).paths|
            && PlanOf(f, v).names == v.snapshot.chunkUuids == NewSnapshot(w, req, file, d).chunkUuids
            && (forall i :: 0 <= i < |PlanOf(f, v).paths| ==> PlanOf(f, v).Follows(w, f, file, d, i))
            && (forall i :: 0 <= i < |PlanOf(f, v).paths| ==> PlanOf(f, v).paths[i] !in cloud)
  {
    var f, v := Hyphenated(d.fileShareId), NewVersion(w, req, file, d);
    NewVersionShaped(w, req, file, d, used);
    FreshPathsAbsent(cloud, used, f, v);
  }

  lemma LeftoverBlobs(before: Cloud, cloud: Cloud, f: string, v: SharedVersion, faults: BuildFaults, k: nat)
    requires v.Shaped() && k < |v.blobs| && |PlanOf(f, v).paths| == |v.blobs|
    requires LeftBehind(before, cloud, PlanOf(f, v), faults, k)
    ensures Within(LeftIndices(faults, k), |v.blobs|)
    ensures var leftover := BlobsAt(f, v, LeftIndices(faults, k));
            && cloud == before + leftover && (cloud == before <==> LeftIndices(faults, k) == {})
            && forall path :: path in leftover ==> SharedPrefix(f) <= path
  {
    BlobsAtUnder(f, v, LeftIndices(faults, k));
  }

  lemma FilledBlobs(before: Cloud, cloud: Cloud, f: string, v: SharedVersion)
    requires v.Shaped() && |PlanOf(f, v).paths| == |v.blobs|
    requires Filled(before, cloud, PlanOf(f, v).paths, PlanOf(f, v).blobs, Below(|PlanOf(f, v).paths|))
    ensures cloud == before + AllBlobs(f, v)
  {
    PathsDistinct(f, v);
    FilledIsPicked(before, cloud, PathsOf(f, v), v.blobs, Below(|v.blobs|));
  }

  predicate Granted(credentials: Credentials) {
    credentials.Scoped? || credentials.Unscoped?
  }

  /** Every question of the second half of `create_share` got an answer. */
  predicate Answered(faults: CreateFaults) {
    Granted(faults.credentials) && faults.contact.Some? && !faults.ownKeyFails
  }

  function TextField(fields: map<string, Json>, name: string): Option<string> {
    if name in fields && fields[name].Text? then Some(fields[name].text) else None
  }

  /** Scoped credentials become the endpoint; without them only the path prefix is handed on. */
  function DeliveryOf(credentials: Credentials, f: string, recipient: Bytes32): (delivery: Delivery)
    requires Granted(credentials)
    ensures delivery.recipient == recipient
    ensures credentials.Unscoped? ==>
              delivery.keyId.None? && delivery.folderId.None? &&
              delivery.endpoint == map["path_prefix" := Text(SharedPrefix(f))]
    // Scoped credentials are handed on as they are, with the request for a receipt set.
    ensures credentials.Scoped? ==>
              var given, endpoint := credentials.fields, delivery.endpoint;
              && endpoint.Keys == given.Keys + {"receipt_requested"} && endpoint["receipt_requested"] == Bool(true)
              && (forall name :: name in given && name != "receipt_requested" ==> endpoint[name] == given[name])
              && delivery.folderId == TextField(given, "folder_id")
              && delivery.keyId == if TextField(given, "key_id").Some? then TextField(given, "key_id")
                                   else TextField(given, "permission_id")
  {
    match credentials
    case Scoped(given) =>
      var fields := given["receipt_requested" := Bool(true)];
      var keyId := TextField(fields, "key_id");
      Delivery(recipient, fields, if keyId.Some? then keyId else TextField(fields, "permission_id"),
               TextField(fields, "folder_id"))
    case Unscoped => Delivery(recipient, map["path_prefix" := Text(SharedPrefix(f))], None, None)
  }

  /** The sealing of version `v` for the contact. */
  ghost function WireOf(w: World, v: SharedVersion, req: Request, f: string, d: Draws, faults: CreateFaults)
    : Result<seq<byte>>
    requires Answered(faults)
  {
    var x := NewSent(req, f, d, DeliveryOf(faults.credentials, f, faults.contact.value), []);
    Hpke.Sealed(w.p, x.recipient, x.ephemeral, w.codec.toJson(PayloadSent(w, v, x)))
  }

  ghost predicate Sealable(w: World, v: SharedVersion, req: Request, f: string, d: Draws, faults: CreateFaults) {
    Answered(faults) && WireOf(w, v, req, f, d, faults).Ok?
  }

  function ReceiptPath(f: string, folder: string): Path {
    SharedPrefix(f) + folder + "/" + RECEIPT_BLOB_NAME
  }

  /** The receipt placeholders that were written. */
  function Placeholders(f: string, folders: set<string>): Cloud {
    (if "receipts" in folders then map[ReceiptPath(f, "receipts") := RECEIPT_PLACEHOLDER] else map[]) +
    (if "import-receipts" in folders then map[ReceiptPath(f, "import-receipts") := RECEIPT_PLACEHOLDER] else map[])
  }

  lemma PlaceholdersAreReceipts(f: string, folders: set<string>)
    ensures forall path :: path in Placeholders(f, folders) ==> IsReceiptPath(f, path)
  {
    assert SharedPrefix(f) + "receipts/" <= ReceiptPath(f, "receipts");
    assert SharedPrefix(f) + "import-receipts/" <= ReceiptPath(f, "import-receipts");
  }

  /** What the second half of `create_share` leaves in the stores. */
  ghost function TailOf(w: World, v: SharedVersion, req: Request, f: string, d: Draws, faults: CreateFaults)
    : (tail: Tail)
    ensures tail.Packaged? <==> Sealable(w, v, req, f, d, faults)
  {
    var placeholders := Placeholders(f, faults.receiptFolders);
    if Sealable(w, v, req, f, d, faults) then
      Packaged(placeholders, DeliveryOf(faults.credentials, f, faults.contact.value),
               WireOf(w, v, req, f, d, faults).value, !faults.insertRow.Refused?, faults.insertRow.Done?)
    else Stopped(placeholders)
  }

  /** What it answers: the first thing that is missing, or the package. */
  ghost function FinishAnswer(w: World, v: SharedVersion, req: Request, f: string, d: Draws, faults: CreateFaults)
    : (r: Result<CreateOutput>)
    ensures r.Ok? <==> Sealable(w, v, req, f, d, faults) && faults.insertRow.Done?
  {
    if faults.credentials.Unsupported? then Err(NotSupported)
    else if faults.credentials.CredentialsFailed? then Err(CloudOperation)
    else if faults.contact.None? then Err(ContactNotFound)
    else if faults.ownKeyFails then Err(Backend)
    else match WireOf(w, v, req, f, d, faults)
      case Err(error) => Err(error)
      case Ok(wire) => if faults.insertRow.Done? then Ok(CreateOutput(Hyphenated(d.shareId), wire)) else Err(Backend)
  }

  /** Sharing a file again under version `f`: the event and the answer. */
  ghost function AgainOutcome(w: World, s: State, f: string, req: Request, d: Draws, faults: CreateFaults)
    : (Event, Result<CreateOutput>)
    requires f in s.versions
  {
    if faults.readFails then (Idle, Err(Backend))
    else
      (ShareAgain(req, f, d, TailOf(w, s.versions[f], req, f, d, faults)),
       FinishAnswer(w, s.versions[f], req, f, d, faults))
  }

  /** How far sharing a file for the first time gets. */
  ghost function StageOf(w: World, req: Request, file: VaultFile, d: Draws, used: set<string>, faults: CreateFaults)
    : Stage
    requires file.Valid() && d.Cover(file) && d.Fresh(used)
  {
    var f, v := Hyphenated(d.fileShareId), NewVersion(w, req, file, d);
    NewVersionShaped(w, req, file, d, used);
    var k := FirstFailure(faults.build, |v.blobs|);
    if k < |v.blobs| then BuildFailed(BlobsAt(f, v, LeftIndices(faults.build, k)))
    else if !faults.insertSnapshot.Done? then SnapshotRefused(faults.insertSnapshot.Lost?)
    else SnapshotStored(TailOf(w, v, req, f, d, faults))
  }

  /** Sharing a file for the first time: the event and the answer. */
  ghost function FreshOutcome(w: World, s: State, req: Request, file: VaultFile, d: Draws, faults: CreateFaults)
    : (Event, Result<CreateOutput>)
    requires file.Valid() ==> d.Cover(file) && d.Fresh(s.used)
  {
    if !file.Valid() then (Idle, Err(Panicked))
    else
      var stage := StageOf(w, req, file, d, s.used, faults);
      (ShareFresh(req, file, d, stage),
       match stage
       case BuildFailed(_) => Err(CloudOperation)
       case SnapshotRefused(_) => Err(Backend)
       case SnapshotStored(_) =>
         FinishAnswer(w, NewVersion(w, req, file, d), req, Hyphenated(d.fileShareId), d, faults))
  }

  /** Sharing for the first time succeeds if and only if the file can be cut, no chunk fails, the snapshot is
      acknowledged, all answers are there, the version can be sealed and the row is acknowledged. */
  lemma FreshSucceedsIff(w: World, s: State, req: Request, file: VaultFile, d: Draws, faults: CreateFaults)
    requires file.Valid() ==> d.Cover(file) && d.Fresh(s.used)
    ensures FreshOutcome(w, s, req, file, d, faults).1.Ok? <==>
              && file.Valid() && (forall i :: 0 <= i < |d.blobNames| ==> faults.build.Passes(i))
              && faults.insertSnapshot.Done? && faults.insertRow.Done?
              && Sealable(w, NewVersion(w, req, file, d), req, Hyphenated(d.fileShareId), d, faults)
  {
    hide Hyphenated, Sealable, BlobsAt, ChunkCount;
    if file.Valid() {
      NewVersionShaped(w, req, file, d, s.used);
      NewVersionParts(w, req, file, d);
    }
  }

  /** The placeholders that are written, by their paths. */
  lemma PlaceholderPaths(f: string, folders: set<string>)
    ensures var under := "shared/" + f + "/";
            Placeholders(f, folders).Keys ==
            (if "receipts" in folders then {under + "receipts" + "/" + "receipt.blob"} else {}) +
            (if "import-receipts" in folders then {under + "import-receipts" + "/" + "receipt.blob"} else {})
    ensures forall path :: path in Placeholders(f, folders) ==>
              Placeholders(f, folders)[path] == Ascii("ARX_RECEIPT_PLACEHOLDER_V1")
  {
    hide Ascii;
  }

  ghost predicate Shared(shares: Shares, fileId: string) {
    exists id :: Active(shares, id) && shares[id].fileId == fileId
  }

  /** The event and the answer of `create_share`, for every state, vault and pattern of faults. With an
      active share of the file, and only then, it shares that share's version again. */
  ghost predicate CreateOutcome(w: World, s: State, req: Request, vault: Result<VaultFile>, d: Draws,
                                faults: CreateFaults, e: Event, r: Result<CreateOutput>)
    requires vault.Ok? && vault.value.Valid() ==> d.Cover(vault.value) && d.Fresh(s.used)
  {
    if faults.listFails then (e, r) == (Idle, Err(Backend))
    else if Shared(s.shares, req.fileId) then
      forall id :: Active(s.shares, id) && s.shares[id].fileId == req.fileId ==>
        var f := s.shares[id].fileShareId; f in s.versions && (e, r) == AgainOutcome(w, s, f, req, d, faults)
    else if vault.Err? then (e, r) == (Idle, Err(vault.error))
    else (e, r) == FreshOutcome(w, s, req, vault.value, d, faults)
  }

  /** The call ran to its end. */
  ghost predicate Acknowledged(e: Event) {
    || (e.ShareFresh? && e.stage.SnapshotStored? && e.stage.tail.Packaged? && e.stage.tail.acknowledged)
    || (e.ShareAgain? && e.tail.Packaged? && e.tail.acknowledged)
  }

  predicate FaultFree(faults: RevokeFaults, n: nat) {
    && !faults.getFails && !faults.listFails && !faults.blobsFail
    && (forall i :: 0 <= i < n ==> faults.delete(i).Done?)
    && faults.setRow.Done? && faults.dropSnapshot.Done?
  }

  ghost predicate AllDeleted(listing: seq<Path>, faults: RevokeFaults) {
    forall i :: 0 <= i < |listing| ==> faults.delete(i).Done?
  }

  /** How far a last-recipient revocation of these blobs gets: to the first call that fails. */
  ghost predicate ProgressMade(listing: seq<Path>, faults: RevokeFaults, progress: Progress) {
    match progress
    case ListFailed => faults.blobsFail
    case DeleteFailed(index, applied) =>
      && !faults.blobsFail && index < |listing| && (forall i :: 0 <= i < index ==> faults.delete(i).Done?)
      && !faults.delete(index).Done? && applied == faults.delete(index).Lost?
    case RowRefused(stored) =>
      !faults.blobsFail && AllDeleted(listing, faults) && !faults.setRow.Done? && stored == faults.setRow.Lost?
    case SnapshotKept(removed) =>
      && !faults.blobsFail && AllDeleted(listing, faults) && faults.setRow.Done?
      && !faults.dropSnapshot.Done? && removed == faults.dropSnapshot.Lost?
    case Finished =>
      !faults.blobsFail && AllDeleted(listing, faults) && faults.setRow.Done? && faults.dropSnapshot.Done?
  }

  /** What the caller is told. */
  function ProgressAnswer(progress: Progress): Result<()> {
    match progress
    case ListFailed => Err(CloudOperation)
    case DeleteFailed(index, _) => Err(RevocationPartial(index))
    case RowRefused(_) => Err(Backend)
    case SnapshotKept(_) => Err(Backend)
    case Finished => Ok(())
  }

  /** The event and the answer of `revoke_share`, for every state and pattern of faults. */
  ghost predicate RevokeAnswer(shares: Shares, id: string, now: int, faults: RevokeFaults, r: Result<()>, e: Event) {
    if faults.getFails then (e, r) == (Idle, Err(Backend))
    else if id !in shares then (e, r) == (Idle, Err(ShareNotFound))
    else if !Active(shares, id) then (e, r) == (Idle, Err(ShareAlreadyRevoked))
    else if faults.listFails then (e, r) == (Idle, Err(Backend))
    else if HasSibling(shares, id) then
      && e == RevokeOne(id, now, !faults.setRow.Refused?, faults.setRow.Done?)
      && r == if faults.setRow.Done? then Ok(()) else Err(Backend)
    else
      && e.RevokeLast? && e.shareId == id && e.now == now
      && ProgressMade(e.listing, faults, e.progress) && r == ProgressAnswer(e.progress)
  }

  lemma LastStep(w: World, s: State, id: string, now: int, listing: seq<Path>, progress: Progress, t: State)
    requires Active(s.shares, id) && !HasSibling(s.shares, id)
    requires progress.ListFailed? || IsListing(listing, s.cloud, SharedPrefix(s.shares[id].fileShareId))
    requires progress.DeleteFailed? ==> progress.index < |listing|
    requires t == AfterRevokeLast(s, id, now, Deleted(listing, progress), progress)
    ensures Step(w, s, RevokeLast(id, now, listing, progress), t)
  {
  }

  lemma FinishedStep(w: World, s: State, e: Event, t: State)
    requires Step(w, s, e, t) && e.RevokeLast? && e.progress.Finished?
    ensures (t.shares, t.snapshots, t.cloud) == RevokedStores(s, e.shareId, e.now)
  {
    FinishedMeetsSpec(w, s, e);
  }

  lemma RevokedRows(s: State, id: string, now: int)
    requires id in s.shares
    ensures RevokedStores(s, id, now).0 == s.shares[id := s.shares[id].(revokedAt := Some(now))]
  {
  }

  /** What the answer of a revocation implies. */
  lemma AnswerDetails(w: World, s: State, id: string, now: int, faults: RevokeFaults, r: Result<()>, e: Event, t: State)
    requires RevokeAnswer(s.shares, id, now, faults, r, e) && Step(w, s, e, t)
    ensures !faults.getFails && id !in s.shares ==> r == Err(ShareNotFound)
    ensures !faults.getFails && id in s.shares && !Active(s.shares, id) ==> r == Err(ShareAlreadyRevoked)
    ensures e.RevokeLast? && e.progress.DeleteFailed? ==> r == Err(RevocationPartial(e.progress.index))
    ensures r.Err? && r.error.RevocationPartial? ==>
              && t.shares == s.shares && !faults.delete(r.error.failedIndex).Done?
              && forall i :: 0 <= i < r.error.failedIndex ==> faults.delete(i).Done?
    ensures Active(s.shares, id) && FaultFree(faults, |s.cloud|) ==> r.Ok?
  {
    hide HasSibling, SharedPrefix;
    if Active(s.shares, id) && FaultFree(faults, |s.cloud|) && e.RevokeLast? && !faults.blobsFail {
      if !e.progress.ListFailed? {
        ListingNoLonger(e.listing, s.cloud, SharedPrefix(s.shares[id].fileShareId));
      }
    }
  }

  lemma ListingNoLonger(listing: seq<Path>, cloud: Cloud, prefix: Path)
    requires IsListing(listing, cloud, prefix)
    ensures |listing| <= |cloud|
  {
    var paths := set path | path in listing;
    DistinctSize(listing);
    assert paths <= cloud.Keys;
    SubsetSize(paths, cloud.Keys);
  }

  lemma {:induction false} DistinctSize(listing: seq<Path>)
    requires forall i, j :: 0 <= i < j < |listing| ==> listing[i] != listing[j]
    ensures |set path | path in listing| == |listing|
  {
    if listing != [] {
      var front, last := listing[..|listing| - 1], listing[|listing| - 1];
      DistinctSize(front);
      assert (set path | path in listing) == (set path | path in front) + {last};
      assert last !in front;
    }
  }

  lemma {:induction false} SubsetSize(a: set<Path>, b: set<Path>)
    requires a <= b
    ensures |a| <= |b|
  {
    assert b == a + (b - a);
  }

  /** The "last recipient" test: the listing holds the share alone exactly when it has no active sibling. */
  lemma SoleListed(shares: Shares, listing: seq<string>, id: string)
    requires Active(shares, id)
    requires forall x :: x in listing <==> Active(shares, x) && shares[x].fileShareId == shares[id].fileShareId
    requires forall i, j :: 0 <= i < j < |listing| ==> listing[i] != listing[j]
    ensures |listing| == 1 && listing[0] == id <==> !HasSibling(shares, id)
  {
    assert id in listing;
    if |listing| == 1 && listing[0] == id {
      assert forall x :: x in listing ==> x == id;
    } else {
      var k := if listing[0] == id then 1 else 0;
      assert listing[k] in listing && listing[k] != id;
    }
  }

  /** What a successful `create_share` leaves: an active row for the request and one more package, for the
      contact's key and with the credentials that were answered, of one version. */
  ghost predicate Delivered(req: Request, faults: CreateFaults, sent: seq<Sent>, sent': seq<Sent>, shares: Shares,
                            out: CreateOutput)
  {
    && Active(shares, out.shareId) && |sent'| == |sent| + 1 && faults.contact.Some? && Granted(faults.credentials)
    && var row, x := shares[out.shareId], sent'[|sent|];
       var delivery := DeliveryOf(faults.credentials, x.fileShareId, faults.contact.value);
       && row.fileId == req.fileId && row.contactId == req.contactId && row.createdAt == req.now
       && row.expiresAt == req.expiresAt == x.expiresAt && row.receiptRequested && row.receiptReceivedAt.None?
       && row.downloadKeyId == delivery.keyId && row.downloadFolderId == delivery.folderId
       && row.fileShareId == x.fileShareId && row.cloudPath == SharedPrefix(x.fileShareId)
       && x.recipient == faults.contact.value && x.endpoint == delivery.endpoint && x.wire == out.wireBytes
  }

  /** Under the invariant the version of an active share can be read back: its snapshot is stored, its id
      parses and its key unwraps, so the three error exits of the reuse branch are unreachable. */
  lemma VersionReadable(w: World, s: State, id: string)
    requires Inv(w, s) && Active(s.shares, id)
    ensures var f := s.shares[id].fileShareId;
            && f in s.snapshots && f in s.versions && s.snapshots[f] == s.versions[f].snapshot
            && ParseStr(s.snapshots[f].shareFileId) == Some(s.versions[f].shareFileId)
            && UnwrappedFileKey(w.p, s.snapshots[f].shareFileKeyWrapped, s.versions[f].shareFileId, w.kek) ==
               Some(s.versions[f].key)
  {
    var f := s.shares[id].fileShareId;
    assert RowOk(s.shares[id], id, s.versions, s.used);
    assert s.versions[f].Encrypts(w, f);
    ParseUndoesHyphenated(s.versions[f].shareFileId);
  }

  lemma AgainMatches(w: World, s: State, req: Request, vault: Result<VaultFile>, d: Draws, faults: CreateFaults,
                     first: string, e: Event, r: Result<CreateOutput>)
    requires Inv(w, s) && d.Fresh(s.used) && (vault.Ok? && vault.value.Valid() ==> d.Cover(vault.value))
    requires !faults.listFails && Active(s.shares, first) && s.shares[first].fileId == req.fileId
    requires s.shares[first].fileShareId in s.versions
    requires (e, r) == AgainOutcome(w, s, s.shares[first].fileShareId, req, d, faults)
    ensures CreateOutcome(w, s, req, vault, d, faults, e, r)
  {
    hide AgainOutcome, FreshOutcome;
  }

  lemma OtherwiseMatches(w: World, s: State, req: Request, vault: Result<VaultFile>, d: Draws, faults: CreateFaults,
                         e: Event, r: Result<CreateOutput>)
    requires d.Fresh(s.used) && (vault.Ok? && vault.value.Valid() ==> d.Cover(vault.value))
    requires faults.listFails || forall id :: Active(s.shares, id) ==> s.shares[id].fileId != req.fileId
    requires (e, r) == if faults.listFails then (Idle, Err(Backend))
                       else if vault.Err? then (Idle, Err(vault.error))
                       else FreshOutcome(w, s, req, vault.value, d, faults)
    ensures CreateOutcome(w, s, req, vault, d, faults, e, r)
  {
    hide AgainOutcome, FreshOutcome;
  }

  lemma AgainStep(w: World, s: State, req: Request, id: string, d: Draws, tail: Tail, t: State)
    requires Active(s.shares, id) && s.shares[id].fileId == req.fileId && s.shares[id].fileShareId in s.versions
    requires d.Fresh(s.used) && TailEnabled(s.shares[id].fileShareId, tail)
    requires t == AfterTail(s.(used := s.used + {Hyphenated(d.shareId)}), req, s.shares[id].fileShareId, d, tail)
    requires tail.Packaged? ==>
               Genuine(w, s.versions[s.shares[id].fileShareId],
                       NewSent(req, s.shares[id].fileShareId, d, tail.delivery, tail.wire))
    ensures Step(w, s, ShareAgain(req, s.shares[id].fileShareId, d, tail), t)
  {
  }

  ghost predicate CanStartFresh(s: State, req: Request, file: VaultFile, d: Draws) {
    && file.Valid() && d.Cover(file) && d.Fresh(s.used)
    && forall id :: Active(s.shares, id) ==> s.shares[id].fileId != req.fileId
  }

  lemma FailedBuildStep(w: World, s: State, req: Request, file: VaultFile, d: Draws, leftover: Cloud, t: State)
    requires CanStartFresh(s, req, file, d)
    requires forall path :: path in leftover ==> SharedPrefix(Hyphenated(d.fileShareId)) <= path
    requires t == s.(used := s.used + {Hyphenated(d.fileShareId), Hyphenated(d.shareId)}, cloud := s.cloud + leftover)
    ensures Step(w, s, ShareFresh(req, file, d, BuildFailed(leftover)), t)
  {
  }

  lemma RefusedSnapshotStep(w: World, s: State, req: Request, file: VaultFile, d: Draws, stored: bool, t: State)
    requires CanStartFresh(s, req, file, d)
    requires t == if stored then AfterSnapshot(w, s, req, file, d) else AfterUpload(w, s, req, file, d)
    ensures Step(w, s, ShareFresh(req, file, d, SnapshotRefused(stored)), t)
  {
  }

  lemma StoredSnapshotStep(w: World, s: State, req: Request, file: VaultFile, d: Draws, tail: Tail, t: State)
    requires CanStartFresh(s, req, file, d) && TailEnabled(Hyphenated(d.fileShareId), tail)
    requires t == AfterTail(AfterSnapshot(w, s, req, file, d), req, Hyphenated(d.fileShareId), d, tail)
    requires tail.Packaged? ==>
               Genuine(w, NewVersion(w, req, file, d),
                       NewSent(req, Hyphenated(d.fileShareId), d, tail.delivery, tail.wire))
    ensures Step(w, s, ShareFresh(req, file, d, SnapshotStored(tail)), t)
  {
  }

  lemma BlobsCarryNonces(w: World, req: Request, file: VaultFile, d: Draws, before: Cloud, used: set<string>)
    requires file.Valid() && d.Cover(file) && d.Fresh(used)
    ensures NewVersion(w, req, file, d).Shaped()
    ensures var f := Hyphenated(d.fileShareId);
            var cloud := before + AllBlobs(f, NewVersion(w, req, file, d));
            forall i :: 0 <= i < |d.blobNames| ==>
              var path := BlobPath(f, Hyphenated(d.blobNames[i]));
              path in cloud && |cloud[path]| > 24 && cloud[path][..24] == d.nonces[i]
  {
    var f, v := Hyphenated(d.fileShareId), NewVersion(w, req, file, d);
    NewVersionShaped(w, req, file, d, used);
    var cloud := before + AllBlobs(f, v);
    AllBlobsPresent(before, f, v);
    hide Hyphenated, AllBlobs, ChunkCount, BlobAt, SharedPrefix, BlobPath;
    forall i | 0 <= i < |d.blobNames|
      ensures var path := BlobPath(f, Hyphenated(d.blobNames[i]));
              path in cloud && |cloud[path]| > 24 && cloud[path][..24] == d.nonces[i]
    {
      var blob := BlobAt(w.p, d.shareKey, d.shareFileId, file.plaintext, file.chunkSize, i, d.nonces[i]);
      assert v.snapshot.chunkUuids[i] == Hyphenated(d.blobNames[i]) && v.blobs[i] == blob;
      BlobCarriesNonce(w.p, d.shareKey, d.shareFileId, file.plaintext, file.chunkSize, i, d.nonces[i]);
    }
  }

  lemma NewVersionParts(w: World, req: Request, file: VaultFile, d: Draws)
    requires file.Valid() && d.Cover(file)
    ensures NewVersion(w, req, file, d).snapshot == NewSnapshot(w, req, file, d)
    ensures NewVersion(w, req, file, d).key == d.shareKey && |NewVersion(w, req, file, d).blobs| == |d.blobNames|
  {
  }

  /** After the upload the version is on record. */
  lemma BuiltVersion(w: World, s: State, req: Request, file: VaultFile, d: Draws)
    requires CanStartFresh(s, req, file, d)
    ensures file.Valid() && d.Cover(file) && d.Fresh(s.used)
    ensures var f, t := Hyphenated(d.fileShareId), AfterUpload(w, s, req, file, d);
            && f in t.versions && t.versions[f] == NewVersion(w, req, file, d) && t.snapshots == s.snapshots
            && t.versions[f].snapshot == NewSnapshot(w, req, file, d) && t.versions[f].key == d.shareKey
  {
    hide Hyphenated, AllBlobs, ChunkCount;
  }

  /** How a call whose chunks all passed goes on. */
  lemma BuiltOutcome(w: World, s: State, req: Request, file: VaultFile, d: Draws, faults: CreateFaults)
    requires CanStartFresh(s, req, file, d)
    requires FirstFailure(faults.build, |NewVersion(w, req, file, d).blobs|) == |NewVersion(w, req, file, d).blobs|
    ensures var v, f := NewVersion(w, req, file, d), Hyphenated(d.fileShareId);
            FreshOutcome(w, s, req, file, d, faults) ==
            if faults.insertSnapshot.Done? then
              (ShareFresh(req, file, d, SnapshotStored(TailOf(w, v, req, f, d, faults))),
               FinishAnswer(w, v, req, f, d, faults))
            else
              (ShareFresh(req, file, d, SnapshotRefused(faults.insertSnapshot.Lost?)), Err(Backend))
  {
    hide Hyphenated, NewVersion, TailOf, FinishAnswer, FirstFailure, BlobsAt, ChunkCount;
  }

  lemma IdleStep(w: World, s: State)
    ensures Step(w, s, Idle, s)
  {
  }

  lemma BelowZero()
    ensures Below(0) == {}
  {
  }

  /** Lists the elements of a set in some order. */
  method Enumerate(elements: set<string>) returns (listing: seq<string>)
    ensures forall x :: x in listing <==> x in elements
    ensures forall i, j :: 0 <= i < j < |listing| ==> listing[i] != listing[j]
  {
    listing := [];
    var rest := elements;
    while rest != {}
      invariant rest <= elements
      invariant forall x :: x in listing <==> x in elements && x !in rest
      invariant forall i, j :: 0 <= i < j < |listing| ==> listing[i] != listing[j]
      decreases rest
    {
      var x :| x in rest;
      listing := listing + [x];
      rest := rest - {x};
    }
  }

  class ShareService {
    const w: World
    var shares: Shares
    var snapshots: Snapshots
    var cloud: Cloud
    ghost var used: set<string>
    ghost var versions: Versions
    ghost var sent: seq<Sent>
    ghost var spoiled: set<string>

    ghost function St(): State
      reads this
    {
      State(shares, snapshots, cloud, used, versions, sent, spoiled)
    }

    constructor (w: World, cloud: Cloud)
      requires forall path, f :: path in cloud && IsIdText(f) ==> !(SharedPrefix(f) <= path)
      ensures this.w == w && this.cloud == cloud && Untouched(St()) && Inv(w, St())
    {
      this.w, this.cloud, shares, snapshots := w, cloud, map[], map[];
      used, versions, sent, spoiled := {}, map[], [], {};
      new;
      UntouchedInv(w, St());
    }

    // ------------------------------------------------------------ store and cloud calls

    method UploadBlob(path: Path, bytes: seq<byte>, outcome: Outcome) returns (ok: bool)
      modifies this`cloud
      ensures ok <==> outcome.Done?
      ensures cloud == if outcome.Refused? then old(cloud) else old(cloud)[path := bytes]
    {
      if !outcome.Refused? {
        cloud := cloud[path := bytes];
      }
      ok := outcome.Done?;
    }

    method DeleteBlob(path: Path, outcome: Outcome) returns (ok: bool)
      modifies this`cloud
      ensures ok <==> outcome.Done?
      ensures cloud == if outcome.Refused? then old(cloud) else old(cloud) - {path}
    {
      if !outcome.Refused? {
        cloud := cloud - {path};
      }
      ok := outcome.Done?;
    }

    method ListBlobs(prefix: Path) returns (listing: seq<Path>)
      ensures IsListing(listing, cloud, prefix)
    {
      listing := Enumerate(set path | path in cloud && prefix < path);
    }

    method ListActiveSharesByFile(fileId: string) returns (ids: seq<string>)
      ensures forall id :: id in ids <==> Active(shares, id) && shares[id].fileId == fileId
    {
      ids := Enumerate(set id | id in shares && shares[id].revokedAt.None? && shares[id].fileId == fileId);
    }

    method ListActiveSharesByFileShareId(f: string) returns (ids: seq<string>)
      ensures forall id :: id in ids <==> Active(shares, id) && shares[id].fileShareId == f
      ensures forall i, j :: 0 <= i < j < |ids| ==> ids[i] != ids[j]
    {
      ids := Enumerate(set id | id in shares && shares[id].revokedAt.None? && shares[id].fileShareId == f);
    }

    // ------------------------------------------------------------ create

    /** Deletes the blobs uploaded so far, ignoring failures. */
    method RollBack(uploaded: seq<Path>, faults: BuildFaults, ghost before: Cloud, ghost plan: UploadPlan)
      requires plan.Shaped() && |uploaded| < |plan.paths|
      requires forall i :: 0 <= i < |uploaded| ==> uploaded[i] == plan.paths[i]
      requires Filled(before, cloud, plan.paths, plan.blobs, Below(|uploaded|) + LostAt(faults, |uploaded|))
      modifies this`cloud
      ensures LeftBehind(before, cloud, plan, faults, |uploaded|)
    {
      var n := |uploaded|;
      ghost var extra := LostAt(faults, n);
      assert Remaining(faults, 0, n, extra) == Below(n) + extra;
      for j := 0 to n
        invariant Filled(before, cloud, plan.paths, plan.blobs, Remaining(faults, j, n, extra))
      {
        FilledLess(before, cloud, plan.paths, plan.blobs, Remaining(faults, j, n, extra), j);
        RemainingStep(faults, j, n, extra);
        var _ := DeleteBlob(uploaded[j], faults.rollback(j));
      }
      assert Remaining(faults, n, n, extra) == LeftIndices(faults, n);
      FilledIsPicked(before, cloud, plan.paths, plan.blobs, LeftIndices(faults, n));
    }

    /** Encrypts, stages and uploads one chunk. */
    method UploadChunk(f: string, file: VaultFile, d: Draws, index: nat, faults: BuildFaults, ghost plan: UploadPlan)
      returns (ok: bool, name: string, remotePath: Path)
      requires plan.Shaped() && plan.Follows(w, f, file, d, index)
      modifies this`cloud
      ensures name == plan.names[index] && remotePath == plan.paths[index]
      ensures ok <==> faults.Passes(index)
      ensures cloud == if faults.staging(index) || faults.upload(index).Refused? then old(cloud)
                       else old(cloud)[plan.paths[index] := plan.blobs[index]]
    {
      var blob := EncryptSlice(w.p, d.shareKey, d.shareFileId, file.plaintext, file.chunkSize, index, d.nonces[index]);
      name := Hyphenated(d.blobNames[index]);
      remotePath := BlobPath(f, name);
      ok := false;
      if !faults.staging(index) {
        ok := UploadBlob(remotePath, blob.value, faults.upload(index));
      }
    }

    /** One turn of the chunk loop: upload, or roll everything back. */
    method ChunkTurn(f: string, file: VaultFile, d: Draws, uploaded: seq<Path>, faults: BuildFaults,
                     ghost before: Cloud, ghost plan: UploadPlan)
      returns (ok: bool, name: string, remotePath: Path)
      requires plan.Shaped() && |uploaded| < |plan.paths| && plan.Follows(w, f, file, d, |uploaded|)
      requires forall i :: 0 <= i < |uploaded| ==> uploaded[i] == plan.paths[i]
      requires Filled(before, cloud, plan.paths, plan.blobs, Below(|uploaded|))
      modifies this`cloud
      ensures name == plan.names[|uploaded|] && remotePath == plan.paths[|uploaded|]
      ensures ok <==> faults.Passes(|uploaded|)
      ensures ok ==> Filled(before, cloud, plan.paths, plan.blobs, Below(|uploaded| + 1))
      ensures !ok ==> LeftBehind(before, cloud, plan, faults, |uploaded|)
    {
      var index := |uploaded|;
      ghost var previous := cloud;
      ok, name, remotePath := UploadChunk(f, file, d, index, faults, plan);
      UploadStep(faults, before, previous, cloud, plan, index);
      if !ok {
        RollBack(uploaded, faults, before, plan);
      }
    }

    /** The chunk loop: a failure at any chunk rolls the earlier ones back. */
    method UploadChunks(f: string, file: VaultFile, d: Draws, chunkCount: nat, faults: BuildFaults,
                        ghost plan: UploadPlan)
      returns (r: Result<seq<string>>, ghost failedAt: nat)
      requires plan.Shaped() && |plan.paths| == chunkCount
      requires forall i :: 0 <= i < |plan.paths| ==> plan.Follows(w, f, file, d, i)
      requires forall i :: 0 <= i < |plan.paths| ==> plan.paths[i] !in cloud
      modifies this`cloud
      ensures failedAt == FirstFailure(faults, |plan.paths|)
      ensures r.Ok? <==> failedAt == |plan.paths|
      ensures r.Ok? ==> r.value == plan.names && Filled(old(cloud), cloud, plan.paths, plan.blobs, Below(|plan.paths|))
      ensures r.Err? ==> r.error == CloudOperation && LeftBehind(old(cloud), cloud, plan, faults, failedAt)
    {
      hide Filled, LeftBehind, UploadPlan.Follows, Below, Hyphenated;
      failedAt := 0;
      assert Below(0) == {} by { BelowZero(); }
      var chunkUuids: seq<string> := [];
      var uploaded: seq<Path> := [];
      FilledStart(cloud, plan.paths, plan.blobs);
      for index := 0 to chunkCount
        invariant |chunkUuids| == |uploaded| == index
        invariant forall i :: 0 <= i < index ==> chunkUuids[i] == plan.names[i] && uploaded[i] == plan.paths[i]
        invariant forall i :: 0 <= i < index ==> faults.Passes(i)
        invariant Filled(old(cloud), cloud, plan.paths, plan.blobs, Below(index))
      {
        var ok, name, remotePath := ChunkTurn(f, file, d, uploaded, faults, old(cloud), plan);
        if !ok {
          FirstFailureIs(faults, chunkCount, index);
          return Err(CloudOperation), index;
        }
        uploaded := uploaded + [remotePath];
        chunkUuids := chunkUuids + [name];
      }
      FirstFailureIs(faults, chunkCount, chunkCount);
      r, failedAt := Ok(chunkUuids), chunkCount;
    }

    /** Re-encrypts the file chunk by chunk under fresh names and uploads the blobs; on a failed chunk it
        rolls back. A zero chunk size with a non-empty file is a division by zero. */
    method BuildNewFileShare(req: Request, file: VaultFile, d: Draws, faults: BuildFaults)
      returns (r: Result<FileShareSnapshot>, ghost failedAt: nat, ghost leftover: Cloud)
      requires file.chunkSize < U32_LIMIT && (file.Valid() ==> d.Cover(file))
      requires PathsOk(cloud, used) && d.Fresh(used)
      modifies this`cloud
      ensures !file.Valid() ==> r == Err(Panicked) && cloud == old(cloud)
      ensures file.Valid() ==> failedAt == FirstFailure(faults, |d.blobNames|)
      ensures file.Valid() ==> (r.Ok? <==> failedAt == |d.blobNames|)
      ensures file.Valid() && r.Err? ==> r.error == CloudOperation
      ensures file.Valid() ==> NewVersion(w, req, file, d).Shaped()
      ensures file.Valid() && r.Ok? ==>
                && r.value == NewSnapshot(w, req, file, d)
                && cloud == old(cloud) + AllBlobs(Hyphenated(d.fileShareId), NewVersion(w, req, file, d))
      // Each blob in the cloud carries its own drawn nonce, and so does the wrapped key.
      ensures file.Valid() && r.Ok? ==>
                && r.value.shareFileKeyWrapped[..24] == d.wrapNonce
                && forall i :: 0 <= i < |d.blobNames| ==>
                     var path := BlobPath(Hyphenated(d.fileShareId), Hyphenated(d.blobNames[i]));
                     path in cloud && |cloud[path]| > 24 && cloud[path][..24] == d.nonces[i]
      ensures file.Valid() && r.Err? ==>
                && failedAt < |d.blobNames|
                && leftover == BlobsAt(Hyphenated(d.fileShareId), NewVersion(w, req, file, d),
                                       LeftIndices(faults, failedAt))
                && (forall path :: path in leftover ==> SharedPrefix(Hyphenated(d.fileShareId)) <= path)
                && cloud == old(cloud) + leftover
                && (cloud == old(cloud) <==> LeftIndices(faults, failedAt) == {})
    {
      failedAt, leftover := 0, map[];
      if file.chunkSize == 0 && file.plaintext != [] {
        return Err(Panicked), 0, map[];
      }
      var f := Hyphenated(d.fileShareId);
      ghost var v := NewVersion(w, req, file, d);
      PlanReady(w, req, file, d, cloud, used);
      ghost var plan := PlanOf(f, v);
      var chunkCount := ChunkCount(|file.plaintext|, file.chunkSize);
      hide NewVersion, UploadPlan.Follows, BlobsAt, AllBlobs, LeftBehind, SharedPrefix, Hyphenated, ChunkCount, PlanOf,
           FirstFailure;
      var names, failed := UploadChunks(f, file, d, chunkCount, faults, plan);
      failedAt := failed;
      if names.Err? {
        LeftoverBlobs(old(cloud), cloud, f, v, faults, failedAt);
        leftover := BlobsAt(f, v, LeftIndices(faults, failedAt));
        return Err(names.error), failedAt, leftover;
      }
      FilledBlobs(old(cloud), cloud, f, v);
      BlobsCarryNonces(w, req, file, d, old(cloud), used);
      WrapCarriesNonce(w.p, d.shareKey, d.shareFileId, w.kek, d.wrapNonce);
      var wrapped := WrapFileKey(w.p, d.shareKey, d.shareFileId, w.kek, d.wrapNonce);
      r := Ok(FileShareSnapshot(f, Hyphenated(d.shareFileId), wrapped, names.value, file.chunkSize, |file.plaintext|,
                                file.name, req.now));
    }

    /** Asks the transport for recipient credentials; a Drive transport also tries to put placeholder
        receipts into the share's receipt folders. */
    method GenerateShareCredentials(f: string, receiptFolders: set<string>)
      modifies this`cloud
      ensures cloud == old(cloud) + Placeholders(f, receiptFolders)
      ensures forall path :: path in Placeholders(f, receiptFolders) ==> IsReceiptPath(f, path)
    {
      PlaceholdersAreReceipts(f, receiptFolders);
      hide ReceiptPath;
      if "receipts" in receiptFolders {
        cloud := cloud[ReceiptPath(f, "receipts") := RECEIPT_PLACEHOLDER];
      }
      if "import-receipts" in receiptFolders {
        cloud := cloud[ReceiptPath(f, "import-receipts") := RECEIPT_PLACEHOLDER];
      }
    }

    /** The second half of `create_share`: credentials, contact, package, row. It succeeds exactly when
        every answer is there, the payload can be sealed and the row insert is acknowledged. */
    method FinishShare(req: Request, f: string, snapshot: FileShareSnapshot, shareFileKey: Bytes32, d: Draws,
                       faults: CreateFaults)
      returns (r: Result<CreateOutput>, ghost tail: Tail)
      requires f in versions && snapshot == versions[f].snapshot && shareFileKey == versions[f].key
      modifies this`cloud, this`shares, this`sent
      ensures tail == TailOf(w, versions[f], req, f, d, faults) && r == FinishAnswer(w, versions[f], req, f, d, faults)
      ensures TailEnabled(f, tail) && St() == AfterTail(old(St()), req, f, d, tail)
      ensures tail.Packaged? ==> Genuine(w, versions[f], NewSent(req, f, d, tail.delivery, tail.wire))
      ensures r.Ok? <==> tail.Packaged? && tail.acknowledged
      ensures r.Ok? ==> Delivered(req, faults, old(sent), sent, shares, r.value)
      ensures r.Ok? ==> r.value.shareId == Hyphenated(d.shareId)
      ensures r.Ok? <==> Answered(faults) && faults.insertRow.Done? && Sealable(w, versions[f], req, f, d, faults)
      ensures faults.credentials.Unsupported? ==> r == Err(NotSupported)
      ensures faults.credentials.CredentialsFailed? ==> r == Err(CloudOperation)
      ensures Granted(faults.credentials) && faults.contact.None? ==> r == Err(ContactNotFound)
      ensures Granted(faults.credentials) && faults.contact.Some? && faults.ownKeyFails ==> r == Err(Backend)
      ensures Sealable(w, versions[f], req, f, d, faults) && !faults.insertRow.Done? ==> r == Err(Backend)
    {
      hide Hpke.Sealed, Hyphenated, SharedPrefix, PayloadOf, Placeholders;
      GenerateShareCredentials(f, faults.receiptFolders);
      ghost var placeholders := Placeholders(f, faults.receiptFolders);
      tail := Stopped(placeholders);
      if faults.credentials.Unsupported? {
        return Err(NotSupported), tail;
      }
      if faults.credentials.CredentialsFailed? {
        return Err(CloudOperation), tail;
      }
      if faults.contact.None? {
        return Err(ContactNotFound), tail;
      }
      if faults.ownKeyFails {
        return Err(Backend), tail;
      }
      var delivery := DeliveryOf(faults.credentials, f, faults.contact.value);
      var wire := CreateSharePackage(w.p, w.codec, delivery.recipient, req.expiresAt, Object(delivery.endpoint),
                                     snapshot, shareFileKey, w.ownPublicKey, Hyphenated(d.packageId), d.ephemeral);
      if wire.Err? {
        return Err(wire.error), tail;
      }
      sent := sent + [NewSent(req, f, d, delivery, wire.value)];
      var shareId := Hyphenated(d.shareId);
      var row := ShareRecord(shareId, req.fileId, req.contactId, f, SharedPrefix(f), req.now, req.expiresAt, None,
                             delivery.keyId, delivery.folderId, true, None);
      if !faults.insertRow.Refused? {
        shares := shares[shareId := row];
      }
      tail := Packaged(placeholders, delivery, wire.value, !faults.insertRow.Refused?, faults.insertRow.Done?);
      if !faults.insertRow.Done? {
        return Err(Backend), tail;
      }
      return Ok(CreateOutput(shareId, wire.value)), tail;
    }

    /** Shares again under the version of an active share. */
    method ReuseVersion(req: Request, first: string, d: Draws, faults: CreateFaults)
      returns (r: Result<CreateOutput>, ghost e: Event)
      requires Inv(w, St()) && d.Fresh(used) && Active(shares, first) && shares[first].fileId == req.fileId
      modifies this
      ensures Step(w, old(St()), e, St())
      ensures old(shares[first].fileShareId in versions)
      ensures (e, r) == AgainOutcome(w, old(St()), old(shares[first].fileShareId), req, d, faults)
      ensures r.Ok? <==> Acknowledged(e)
      ensures r.Ok? ==> Delivered(req, faults, old(sent), sent, shares, r.value)
      ensures r.Ok? ==> r.value.shareId == Hyphenated(d.shareId)
    {
      hide Inv, Step, Genuine, ParseStr, UnwrappedFileKey, AfterTail, TailOf, FinishAnswer, Sealable;
      ghost var s := St();
      var f := shares[first].fileShareId;
      IdleStep(w, s);
      VersionReadable(w, s, first);
      if faults.readFails {
        return Err(Backend), Idle;
      }
      var snapshot := snapshots[f];
      var shareFileId := ParseStr(snapshot.shareFileId);
      var key := UnwrapFileKey(w.p, snapshot.shareFileKeyWrapped, shareFileId.value, w.kek);
      used := used + {Hyphenated(d.shareId)};
      ghost var tail;
      r, tail := FinishShare(req, f, snapshot, key.value, d, faults);
      AgainStep(w, s, req, first, d, tail, St());
      e := ShareAgain(req, f, d, tail);
    }

    /** Stores the snapshot of a version just uploaded and shares it. */
    method ShareBuilt(req: Request, file: VaultFile, d: Draws, snapshot: FileShareSnapshot, faults: CreateFaults,
                      ghost s: State)
      returns (r: Result<CreateOutput>, ghost e: Event)
      requires CanStartFresh(s, req, file, d) && snapshot == NewSnapshot(w, req, file, d)
      requires St() == AfterUpload(w, s, req, file, d)
      requires FirstFailure(faults.build, |NewVersion(w, req, file, d).blobs|) == |NewVersion(w, req, file, d).blobs|
      modifies this`cloud, this`shares, this`sent, this`snapshots
      ensures Step(w, s, e, St())
      ensures (e, r) == FreshOutcome(w, s, req, file, d, faults)
      ensures r.Ok? <==> Acknowledged(e)
      ensures r.Ok? ==> Delivered(req, faults, old(sent), sent, shares, r.value)
      ensures r.Ok? ==> r.value.shareId == Hyphenated(d.shareId)
    {
      hide Step, Genuine, AfterTail, NewVersion, NewSnapshot, Hyphenated, Delivered, TailEnabled, Sealable, AllBlobs,
           TailOf, FinishAnswer, FirstFailure, StageOf, FreshOutcome, CanStartFresh;
      BuiltVersion(w, s, req, file, d);
      BuiltOutcome(w, s, req, file, d, faults);
      var f := Hyphenated(d.fileShareId);
      if !faults.insertSnapshot.Refused? {
        snapshots := snapshots[f := snapshot];
      }
      if !faults.insertSnapshot.Done? {
        RefusedSnapshotStep(w, s, req, file, d, faults.insertSnapshot.Lost?, St());
        return Err(Backend), ShareFresh(req, file, d, SnapshotRefused(faults.insertSnapshot.Lost?));
      }
      ghost var tail;
      r, tail := FinishShare(req, f, snapshot, d.shareKey, d, faults);
      StoredSnapshotStep(w, s, req, file, d, tail, St());
      e := ShareFresh(req, file, d, SnapshotStored(tail));
    }

    /** Builds a new version and shares it. */
    method NewShare(req: Request, file: VaultFile, d: Draws, faults: CreateFaults)
      returns (r: Result<CreateOutput>, ghost e: Event)
      requires PathsOk(cloud, used) && d.Fresh(used)
      requires forall id :: Active(shares, id) ==> shares[id].fileId != req.fileId
      requires file.chunkSize < U32_LIMIT && (file.Valid() ==> d.Cover(file))
      modifies this
      ensures Step(w, old(St()), e, St())
      ensures r.Ok? <==> Acknowledged(e)
      ensures r.Ok? ==> Delivered(req, faults, old(sent), sent, shares, r.value)
      ensures r.Ok? ==> r.value.shareId == Hyphenated(d.shareId)
      ensures (e, r) == FreshOutcome(w, old(St()), req, file, d, faults)
    {
      hide Step, NewVersion, NewSnapshot, Hyphenated, Delivered, PathsOk, BlobsAt, AllBlobs, ChunkCount, SharedPrefix,
           LeftIndices, FirstFailure, TailOf, FinishAnswer;
      ghost var s := St();
      var f := Hyphenated(d.fileShareId);
      var built, _, leftover := BuildNewFileShare(req, file, d, faults.build);
      if !file.Valid() {
        IdleStep(w, s);
        return Err(built.error), Idle;
      }
      ghost var v := NewVersion(w, req, file, d);
      NewVersionParts(w, req, file, d);
      used := used + {f, Hyphenated(d.shareId)};
      if built.Err? {
        FailedBuildStep(w, s, req, file, d, leftover, St());
        return Err(built.error), ShareFresh(req, file, d, BuildFailed(leftover));
      }
      versions := versions[f := v];
      r, e := ShareBuilt(req, file, d, built.value, faults, s);
    }

    /** `create_share`: reuses the version of an active share of the file, or makes a new one. `vault` is
        what looking up and decrypting the file yields. Whatever fails, the stores stay in step. */
    method CreateShare(req: Request, vault: Result<VaultFile>, d: Draws, faults: CreateFaults)
      returns (r: Result<CreateOutput>, ghost e: Event)
      requires Inv(w, St()) && d.Fresh(used)
      requires vault.Ok? ==> vault.value.chunkSize < U32_LIMIT && (vault.value.Valid() ==> d.Cover(vault.value))
      modifies this
      ensures Step(w, old(St()), e, St()) && Inv(w, St())
      ensures CreateOutcome(w, old(St()), req, vault, d, faults, e, r)
      ensures r.Ok? <==> Acknowledged(e)
      ensures r.Ok? ==> Delivered(req, faults, old(sent), sent, shares, r.value)
      ensures r.Ok? ==> r.value.shareId == Hyphenated(d.shareId)
    {
      ghost var s := St();
      assert PathsOk(cloud, used);
      hide Inv, Step, PathsOk, Acknowledged, Delivered, Hyphenated, ChunkCount, AgainOutcome, FreshOutcome,
           CreateOutcome;
      IdleStep(w, s);
      e := Idle;
      if faults.listFails {
        OtherwiseMatches(w, s, req, vault, d, faults, Idle, Err(Backend));
        return Err(Backend), Idle;
      }
      var ids := ListActiveSharesByFile(req.fileId);
      if ids != [] {
        assert ids[0] in ids;
        r, e := ReuseVersion(req, ids[0], d, faults);
        AgainMatches(w, s, req, vault, d, faults, ids[0], e, r);
      } else if vault.Err? {
        OtherwiseMatches(w, s, req, vault, d, faults, Idle, Err(vault.error));
        return Err(vault.error), Idle;
      } else {
        r, e := NewShare(req, vault.value, d, faults);
        OtherwiseMatches(w, s, req, vault, d, faults, e, r);
      }
      StepKeepsInv(w, s, e, St());
    }

    // ------------------------------------------------------------ revoke

    /** The delete loop of a last-recipient revocation: stops at the first blob that cannot be deleted. */
    method DeleteListed(listing: seq<Path>, faults: RevokeFaults) returns (failedAt: Option<nat>)
      modifies this`cloud
      ensures failedAt.None? <==> AllDeleted(listing, faults)
      ensures failedAt.None? ==> cloud == old(cloud) - (set path | path in listing)
      ensures failedAt.Some? ==>
                var index := failedAt.value;
                && index < |listing| && !faults.delete(index).Done?
                && (forall i :: 0 <= i < index ==> faults.delete(i).Done?)
                && var applied := faults.delete(index).Lost?;
                   cloud == old(cloud) - (set path | path in Deleted(listing, DeleteFailed(index, applied)))
    {
      for index := 0 to |listing|
        invariant cloud == old(cloud) - (set path | path in listing[..index])
        invariant forall i :: 0 <= i < index ==> faults.delete(i).Done?
      {
        var ok := DeleteBlob(listing[index], faults.delete(index));
        assert listing[..index + 1] == listing[..index] + [listing[index]];
        if !ok {
          return Some(index);
        }
      }
      assert listing[..|listing|] == listing;
      return None;
    }

    /** `revoke_share`. A blob that is already gone counts as deleted. On success the stores are as the
        specification of a revocation says. */
    method RevokeShare(shareId: string, now: int, faults: RevokeFaults) returns (r: Result<()>, ghost e: Event)
      requires Inv(w, St())
      modifies this
      ensures Step(w, old(St()), e, St()) && Inv(w, St())
      ensures RevokeAnswer(old(shares), shareId, now, faults, r, e)
      ensures !faults.getFails && shareId !in old(shares) ==> r == Err(ShareNotFound)
      ensures !faults.getFails && shareId in old(shares) && !Active(old(shares), shareId) ==>
                r == Err(ShareAlreadyRevoked)
      // A partial error carries the index of the first failed deletion and leaves the rows alone.
      ensures e.RevokeLast? && e.progress.DeleteFailed? ==> r == Err(RevocationPartial(e.progress.index))
      ensures r.Err? && r.error.RevocationPartial? ==>
                && shares == old(shares) && !faults.delete(r.error.failedIndex).Done?
                && forall i :: 0 <= i < r.error.failedIndex ==> faults.delete(i).Done?
      ensures Active(old(shares), shareId) && FaultFree(faults, |old(cloud)|) ==> r.Ok?
      ensures r.Ok? ==> Active(old(shares), shareId)
      ensures r.Ok? ==> shares == old(shares)[shareId := old(shares)[shareId].(revokedAt := Some(now))]
      ensures r.Ok? ==> (shares, snapshots, cloud) == RevokedStores(old(St()), shareId, now)
    {
      hide Inv, Step, RevokedStores, ProgressMade, HasSibling;
      ghost var s := St();
      if faults.getFails || faults.listFails || shareId !in shares || shares[shareId].revokedAt.Some? {
        e := Idle;
        r := Err(if faults.getFails then Backend
                 else if shareId !in shares then ShareNotFound
                 else if shares[shareId].revokedAt.Some? then ShareAlreadyRevoked
                 else Backend);
        IdleStep(w, s);
      } else {
        var remaining := ListActiveSharesByFileShareId(shares[shareId].fileShareId);
        var isLast := |remaining| == 1 && remaining[0] == shareId;
        SoleListed(shares, remaining, shareId);
        if isLast {
          r, e := RevokeLastRecipient(shareId, now, faults);
        } else {
          r, e := RevokeOneRecipient(shareId, now, faults);
        }
      }
      if r.Ok? {
        RevokedRows(s, shareId, now);
      }
      AnswerDetails(w, s, shareId, now, faults, r, e, St());
      StepKeepsInv(w, s, e, St());
    }

    method RevokeOneRecipient(shareId: string, now: int, faults: RevokeFaults) returns (r: Result<()>, ghost e: Event)
      requires Active(shares, shareId) && HasSibling(shares, shareId) && !faults.getFails && !faults.listFails
      modifies this`shares
      ensures Step(w, old(St()), e, St())
      ensures RevokeAnswer(old(shares), shareId, now, faults, r, e)
      ensures r.Ok? ==> (shares, snapshots, cloud) == RevokedStores(old(St()), shareId, now)
    {
      if !faults.setRow.Refused? {
        shares := shares[shareId := shares[shareId].(revokedAt := Some(now))];
      }
      e := RevokeOne(shareId, now, !faults.setRow.Refused?, faults.setRow.Done?);
      r := if faults.setRow.Done? then Ok(()) else Err(Backend);
    }

    /** Blobs first, then the row, then the snapshot. */
    method RevokeLastRecipient(shareId: string, now: int, faults: RevokeFaults) returns (r: Result<()>, ghost e: Event)
      requires Active(shares, shareId) && !HasSibling(shares, shareId) && !faults.getFails && !faults.listFails
      modifies this
      ensures Step(w, old(St()), e, St())
      ensures RevokeAnswer(old(shares), shareId, now, faults, r, e)
      ensures r.Ok? ==> (shares, snapshots, cloud) == RevokedStores(old(St()), shareId, now)
    {
      hide Step, RevokedStores, HasSibling, IsListing, SharedPrefix, AllDeleted;
      ghost var s := St();
      var f := shares[shareId].fileShareId;
      if faults.blobsFail {
        spoiled := spoiled + {f};
        e := RevokeLast(shareId, now, [], ListFailed);
        LastStep(w, s, shareId, now, [], ListFailed, St());
        return Err(CloudOperation), e;
      }
      var listing := ListBlobs(SharedPrefix(f));
      var failedAt := DeleteListed(listing, faults);
      if failedAt.Some? {
        spoiled := spoiled + {f};
        e := RevokeLast(shareId, now, listing, DeleteFailed(failedAt.value, faults.delete(failedAt.value).Lost?));
        LastStep(w, s, shareId, now, listing, e.progress, St());
        return Err(RevocationPartial(failedAt.value)), e;
      }
      r, e := MarkRevoked(shareId, now, listing, faults, s);
    }

    /** All blobs are gone: marks the row, then drops the snapshot. */
    method MarkRevoked(shareId: string, now: int, listing: seq<Path>, faults: RevokeFaults, ghost s: State)
      returns (r: Result<()>, ghost e: Event)
      requires Active(s.shares, shareId) && !HasSibling(s.shares, shareId)
      requires IsListing(listing, s.cloud, SharedPrefix(s.shares[shareId].fileShareId))
      requires St() == s.(cloud := s.cloud - (set path | path in listing))
      requires !faults.getFails && !faults.listFails && !faults.blobsFail && AllDeleted(listing, faults)
      modifies this`shares, this`snapshots, this`spoiled
      ensures Step(w, s, e, St())
      ensures RevokeAnswer(s.shares, shareId, now, faults, r, e)
      ensures r.Ok? ==> (shares, snapshots, cloud) == RevokedStores(s, shareId, now)
    {
      hide Step, RevokedStores, HasSibling, IsListing, SharedPrefix, AllDeleted;
      var f := shares[shareId].fileShareId;
      if !faults.setRow.Refused? {
        shares := shares[shareId := shares[shareId].(revokedAt := Some(now))];
      }
      if !faults.setRow.Done? {
        spoiled := spoiled + {f};
        e := RevokeLast(shareId, now, listing, RowRefused(faults.setRow.Lost?));
        LastStep(w, s, shareId, now, listing, e.progress, St());
        return Err(Backend), e;
      }
      if !faults.dropSnapshot.Refused? {
        snapshots := snapshots - {f};
      }
      if !faults.dropSnapshot.Done? {
        spoiled := spoiled + {f};
        e := RevokeLast(shareId, now, listing, SnapshotKept(faults.dropSnapshot.Lost?));
        LastStep(w, s, shareId, now, listing, e.progress, St());
        return Err(Backend), e;
      }
      e := RevokeLast(shareId, now, listing, Finished);
      LastStep(w, s, shareId, now, listing, Finished, St());
      FinishedStep(w, s, e, St());
      r := Ok(());
    }
  }
}
