# Arx Runa: sharing, packages, navigation and config parsing, verified

Arx Runa is a zero-knowledge vault. This project models the parts of it where several stores, several
byte layouts or several concurrent futures have to agree, and proves that they do.

* **Outgoing shares** (`ShareState`, `ShareInvariant`, `ShareRuns`, `ShareService`,
  `ShareOutcomes`, `CloudPaths`).
  `create_share` and `revoke_share` keep three stores in step: share rows, `file_shares` snapshots and the
  cloud blobs under `shared/<file_share_id>/`. `ShareService` is the imperative code over three maps, where
  every store or cloud call succeeds, is refused, or takes effect although the caller sees an error.
  `ShareState` is a state machine whose events are calls cut off at any point; every method is proved to be
  one of its steps, and the theorems are about every run of steps. A run carries history (the versions
  shared, the packages sealed, the share ids with a failed last-recipient revocation), so that what holds
  between far-apart calls can be stated.
* **The share data path** (`Bytes`, `Aead`, `Envelope`, `CtxAead`, `Hpke`, `Uuid`, `Store`, `Packages`,
  `DataPath`). Cutting, padding, encrypting, packaging and sealing at the sender; opening, validating,
  importing, decrypting and truncating at the recipient. The keystream block function, the Poly1305 tag, the
  hashes and the Diffie-Hellman function are parameters. The only law assumed of any of them is that the two
  sides of the Diffie-Hellman agree; claims about tags and hashes are reductions that exhibit a collision.
* **rclone.conf** (`Text`, `RcloneConf`, `B2Conf`, `GdriveConf`). The four line-by-line readers, each a loop
  over flags with early returns, proved equal to a reading of the stanza bodies it is about.
* **Directory navigation** (`VaultContext`). Futures that start and complete in any order, guarded by a
  wrapping 32-bit generation counter.
* **Vault paths** (`VaultPath`) and **downloading a received share** (`Fetch`, `Recipient`).

`dafny verify dfyconfig.toml` verifies everything.

## What turned out to hold, and what did not

Expectations that turned out false of the code, with the exact condition under which they hold:

* An empty file does not survive sharing: its size is not recorded, so it downloads as one chunk of zeros
  (`DataPath.ShareRoundTrip`, `DataPath.DownloadFromRow`).
* The rollback of a failed upload restores the cloud exactly when every rollback delete is carried out and
  the failing upload itself had no effect (`ShareService.ShareService.BuildNewFileShare`,
  `ShareService.RollbackCanFail`).
* A revocation of the last recipient that fails after deleting blobs leaves an active share that cannot be
  downloaded and can still be shared again (`ShareOutcomes.StrandedShare`, `ShareOutcomes.SharedAgainAsItIs`). In
  every reachable state a recipient gets a non-empty file exactly when nothing at the recipient stands in the way
  (expiry, a provider in the endpoint, addressable blobs, local faults) and all chunk paths of the version are in
  the cloud (`ShareOutcomes.DownloadIff`); they are unless a revocation deleted one (`ShareOutcomes.AllThereIff`).
* A share through a transport without scoped credentials is created and can never be downloaded
  (`ShareOutcomes.UnscopedNeverDownloads`).
* A share from a B2 vault can be downloaded only if the vault's destination has no path prefix: sender and recipient
  mean the same object exactly then (`Recipient.B2KeysAgreeIff`, `ShareOutcomes.PrefixedVaultUnreachable`).
* The snapshot with its wrapped key is not always dropped with the last recipient, and then never is
  (`ShareOutcomes.SnapshotOutlivesShare`). It stays exactly after one of four events
  (`ShareOutcomes.LeftoverSnapshotIff`).
* The spinner can be on with nothing in flight, exactly when the last future to start was already superseded and no
  clear or commit followed (`VaultContext.QuiescentLoading`).
* The first B2 reader does not depend on the order of lines with distinct keys, the second does
  (`B2Conf.LineOrderIrrelevant`, `B2Conf.CredentialsIff`, `B2Conf.AccountBeforeType`).
* The path of a breadcrumb leads back to it exactly when its label is not empty (`VaultPath.CrumbLeadsBack`,
  `VaultPath.DoubleSlashLosesCrumb`).
* A failed fetch removes the earlier chunks but not what the failing download itself wrote
  (`Fetch.FailingChunkStaysIff`, `Fetch.FailingChunkStays`), and the temporary conf survives a write that
  failed half-way (`Fetch.HalfWrittenConfStays`).

Where a comment and the code disagree, the code is modelled. `src-tauri/src/crypto/recovery_wrap.rs:7` says
that file-key wraps use empty associated data, but `src-tauri/src/crypto/wrap_key.rs:53` uses the file id.
`src-tauri/src/sharing/ctx_aead.rs:8` shows a nonce in the wire layout, but `src-tauri/src/sharing/hpke.rs:224-228`
writes none: it is derived. `src-tauri/src/sharing/gdrive_api.rs:54-55` asks for all three OAuth fields, but the code
fills a missing client id or secret with the empty string. `src-tauri/src/sharing/b2_api.rs:268` speaks of the
first stanza with `type = b2`, but the code takes the first one that is complete after that line.

## Model

| member | source | states |
|---|---|---|
| ShareService.ShareService.CreateShare | src-tauri/src/sharing/cloud.rs:60-187 | For every state, vault and pattern of faults: which event happens and what is answered. With an active share of the file, and only then, its version is shared again; otherwise a new version is made. The event is a step of the state machine and keeps the invariant; success leaves an active row for the request and one more package, for the contact's key and with the credentials that were answered, of that row's version |
| ShareService.ShareService.ReuseVersion | src-tauri/src/sharing/cloud.rs:80-97 | Unless a read fails, the call shares the version of that share again and answers as the second half of the call does; it succeeds if and only if all answers are there, the version can be sealed and the row insert is acknowledged; none of the missing-snapshot, bad-id or bad-key errors can occur |
| ShareService.VersionReadable | src-tauri/src/sharing/cloud.rs:80-97 | Under the invariant an active share's snapshot is stored, its id parses and its wrapped key unwraps to the key first used, so the three error exits are unreachable |
| ShareService.ShareService.NewShare | src-tauri/src/sharing/cloud.rs:98-112 | A new version under a fresh id. Which stage is reached for which faults: the first chunk that fails, a refused snapshot, or the second half; success if and only if every chunk passes, the snapshot and the row are acknowledged, all answers are there and the version can be sealed; a non-empty file with chunk size zero panics |
| ShareService.ShareService.FinishShare | src-tauri/src/sharing/cloud.rs:114-187 | The answer and the change of the stores for every pattern of faults; succeeds if and only if credentials, contact and own key are there, the payload can be sealed and the row is acknowledged; what it makes is the sealing of the version |
| ShareService.DeliveryOf | src-tauri/src/sharing/cloud.rs:123-149 | Scoped credentials are handed on field by field as they are, with the receipt request set; the row remembers the key or permission id and the folder id; without them only the path prefix is handed on |
| ShareService.FreshSucceedsIff | src-tauri/src/sharing/cloud.rs:98-187 | A first share succeeds if and only if the file can be cut, no chunk fails, snapshot and row are acknowledged, all answers are there and the version can be sealed |
| ShareService.ShareService.BuildNewFileShare | src-tauri/src/sharing/cloud.rs:197-337 | Succeeds if and only if no chunk fails, and then adds exactly the version's blobs, each carrying its own drawn nonce; otherwise, at the first chunk that fails, the cloud is as before plus exactly the blobs whose rollback delete was refused and the failing one if its upload took effect, so it is as before if and only if there are none; no row or snapshot changes |
| ShareService.RollbackCanFail | src-tauri/src/sharing/cloud.rs:310-317 | Two chunks, the second upload and the delete of the first blob refused: the first blob is left |
| ShareService.ShareService.UploadChunks | src-tauri/src/sharing/cloud.rs:278-320 | The chunk loop uploads the planned blobs under the planned names in order, or stops at the first chunk that fails and rolls back |
| ShareService.ShareService.RollBack | src-tauri/src/sharing/cloud.rs:299-317 | Which blobs remain after the best-effort deletes, for every pattern of failures |
| ShareService.ShareService.GenerateShareCredentials | src-tauri/src/storage/cloud/rclone.rs:363-380 | Writes nothing but the receipt placeholders of that share in the given folders |
| ShareService.PlaceholderPaths | src-tauri/src/storage/cloud/rclone.rs:363-380 | The two placeholder paths and their content |
| ShareService.ShareService.RevokeShare | src-tauri/src/sharing/revocation.rs:19-67 | For every state and pattern of faults: which event happens and what is answered; unknown and already revoked ids are refused; a partial error carries the index of the first failed deletion and leaves the rows alone; without a fault it succeeds. Every event is a step and keeps the invariant; on success the row is marked with the given time and the stores are as `RevokedStores` says |
| ShareService.ShareService.DeleteListed | src-tauri/src/sharing/revocation.rs:42-51 | Stops at the first blob whose deletion fails, all before it having been deleted, and removes nothing else |
| ShareService.ShareService.RevokeLastRecipient | src-tauri/src/sharing/revocation.rs:36-66 | Blobs, then row, then snapshot; the progress made is that up to the first call that fails, and the answer tells it |
| ShareService.ShareService.MarkRevoked | src-tauri/src/sharing/revocation.rs:54-66 | The row is marked only after all blobs are gone, the snapshot dropped only after the row was marked |
| ShareService.ShareService.RevokeOneRecipient | src-tauri/src/sharing/revocation.rs:54-56 | With other active recipients only the row changes |
| ShareService.SoleListed | src-tauri/src/sharing/revocation.rs:31-34 | The last-recipient test is true if and only if no other active row has that `file_share_id` |
| ShareInvariant.EventKeepsStores | src-tauri/src/sharing/cloud.rs:76-187 | Every call, however far it gets, keeps rows, snapshots and blobs in step |
| ShareInvariant.ShareFreshKeepsStores | src-tauri/src/sharing/cloud.rs:98-187 | The same for a first share of a file, cut off anywhere |
| ShareInvariant.RevokeLastKeepsStores | src-tauri/src/sharing/revocation.rs:36-66 | The same for a last-recipient revocation, cut off anywhere |
| ShareRuns.StepKeepsInv | src-tauri/src/sharing/cloud.rs:60-187 | The whole invariant, including that every version decrypts to its file and every package carries its version, is kept by each call |
| ShareRuns.RunKeepsInv | src-tauri/src/sharing/cloud.rs:60-187 | It holds after every run of creates and revokes with arbitrary faults |
| ShareRuns.StoresInStep | src-tauri/src/sharing/cloud.rs:76-187 | In every reachable state each non-revoked row has its snapshot, the non-revoked rows of one file carry one `file_share_id`, and rows with one `file_share_id` belong to one file |
| ShareOutcomes.PackagesAgree | src-tauri/src/sharing/packages.rs:75-88 | In every reachable state any two packages for one `file_share_id`, opened by their recipients, carry the same file id, key, chunk list, chunk size, file size and name |
| ShareOutcomes.RecipientsCanDownload | src-tauri/src/ui/sharing_commands.rs:887-986 | In every reachable state a recipient with nothing in the way gets the file of a share with an active row as it was shared, unless a last-recipient revocation of that share failed |
| ShareOutcomes.DownloadIff | src-tauri/src/ui/sharing_commands.rs:887-986 | In every reachable state, for every package ever made of a non-empty file: the recipient gets the file if and only if the share has not expired, a transport can be had and blobs addressed, no local fault occurs, and every chunk path of the version is in the cloud; otherwise the answer is the error of the first of these that fails |
| ShareOutcomes.VaultFileArrives | src-tauri/src/sharing/cloud.rs:197-337 | What an unhindered recipient gets is the content, under its name, of the vault file passed to the call that first shared it |
| ShareOutcomes.VersionOrigin | src-tauri/src/sharing/cloud.rs:267-336 | In every run each version is the file, name and chunk size given to the one call that made it, under the key and nonces drawn in it |
| ShareOutcomes.ExpiryDecides | src-tauri/src/ui/sharing_commands.rs:892-896 | A share is refused as expired exactly from the second after its expiry on |
| ShareOutcomes.CredentialsArrive | src-tauri/src/sharing/cloud.rs:123-135 | The credentials that the sender's transport answered arrive in the recipient's row field by field |
| ShareOutcomes.B2ShareDownloads | src-tauri/src/sharing/cloud.rs:379-451 | The whole way over B2, from the answered credentials to the file: vault at the root of its bucket, not expired, blobs all there, no local fault |
| ShareOutcomes.OwnCloudServes | src-tauri/src/sharing/cloud.rs:551-561 | Without a scoped transport the recipient's own one serves the share if it reads the sender's cloud |
| ShareOutcomes.ImportsIff | src-tauri/src/sharing/packages.rs:107-160 | In every reachable state a package imports at its recipient if and only if the file has a name and its chunk count fits a `u32` |
| ShareOutcomes.UnscopedNeverDownloads | src-tauri/src/sharing/cloud.rs:513-525 | A share made without scoped credentials is never downloaded, whatever the recipient's machine: its endpoint names no provider |
| ShareOutcomes.ChunkThereIff | src-tauri/src/sharing/revocation.rs:42-51 | In every run a chunk of a version is in the cloud if and only if no revocation deleted it |
| ShareOutcomes.AllThereIff | src-tauri/src/sharing/revocation.rs:42-51 | So a version is all there if and only if no last-recipient revocation in the run deleted a chunk of it |
| ShareOutcomes.RootVaultServes | src-tauri/src/sharing/cloud.rs:406 | A B2 vault at the root of its bucket is served to recipients as it is |
| ShareOutcomes.PrefixedVaultUnreachable | src-tauri/src/storage/cloud/rclone.rs:431-439 | From a B2 vault with a destination path prefix no recipient can download: the credentials name the share's prefix without it |
| Recipient.B2KeysAgreeIff | src-tauri/src/sharing/cloud.rs:406 | The key a recipient's transport asks for and the one the sender wrote are the same if and only if the vault's destination has no path prefix |
| Recipient.DownloadReceivedShare | src-tauri/src/ui/sharing_commands.rs:887-986 | Expiry, key, fetch, decryption and clean-up: the answer and the staging files left, for every pattern of faults |
| Recipient.HonestDownload | src-tauri/src/ui/sharing_commands.rs:887-986 | Through a transport that copies what is there: the first obstacle's error, or what the found blobs decrypt to |
| Recipient.HonestFetch | src-tauri/src/sharing/cloud.rs:533-600 | Such a fetch succeeds if and only if blobs can be addressed and all are found, and then stages exactly what was found |
| Recipient.MisplacedBlobRefused | src-tauri/src/ui/sharing_commands.rs:1358-1364 | If a found blob was made under another key, for another file or position, the download answers an error and no file, unless tags collide |
| Recipient.WrongKeyRefused | src-tauri/src/ui/sharing_commands.rs:898-905 | A row whose key was wrapped under another key or for another file gives an internal error and fetches nothing, unless tags collide |
| Recipient.NoChunkFileRemains | src-tauri/src/ui/sharing_commands.rs:979-981 | After a download no chunk file stays in the staging directory, except those that cannot be removed |
| Recipient.B2AnswerSuffices | src-tauri/src/storage/cloud/rclone.rs:431-439 | The credentials a B2 transport answers make a share that a scoped transport can be built for, and the conf has them |
| Recipient.DriveAnswerSuffices | src-tauri/src/storage/cloud/rclone.rs:559-568 | So do those of a Drive transport, if the account is JSON |
| Recipient.FieldsNeeded | src-tauri/src/sharing/cloud.rs:384-399 | Without any one of the embedded fields the package is refused as invalid |
| Recipient.StagingNeeded | src-tauri/src/sharing/cloud.rs:476-480 | Without a staging directory or a written conf the cloud operation fails |
| Recipient.OwnTransport | src-tauri/src/sharing/cloud.rs:513-561 | Without the binary, or with another provider, the own transport is used; it needs a provider and a path prefix |
| Recipient.SoundRowStaysInStaging | src-tauri/src/sharing/cloud.rs:544-549 | The chunk files of an imported row lie inside the staging directory, whoever made the package |
| ShareOutcomes.RunKeepsChunks | src-tauri/src/sharing/cloud.rs:281-320 | In every run whatever lies at a chunk path of a version is that version's blob |
| ShareOutcomes.StrandedShare | src-tauri/src/sharing/revocation.rs:42-56 | The exception is needed: share, then a last-recipient revocation that deletes the blobs and cannot mark the row, ends with an active share whose package imports and whose unhindered download is answered with a failed cloud operation |
| ShareOutcomes.SharedAgainAsItIs | src-tauri/src/sharing/cloud.rs:80-97 | With an active row the file can be shared again whatever the cloud holds, and no blob comes back |
| ShareRuns.EventTouchesOnePrefix | src-tauri/src/sharing/revocation.rs:37-51 | A call changes no blob outside the prefix of the one share it is about |
| ShareRuns.VaultBlobsUntouched | src-tauri/src/sharing/revocation.rs:37-51 | No run changes a blob under `vault/` |
| ShareRuns.OtherSharesUntouched | src-tauri/src/sharing/revocation.rs:37-51 | A call about one `file_share_id` never changes a blob of another |
| ShareRuns.FinishedMeetsSpec | src-tauri/src/sharing/revocation.rs:36-66 | A finished revocation marks the row and leaves no blob under the prefix and no snapshot, and nothing else changes |
| ShareRuns.FailedAttemptShrinks | src-tauri/src/sharing/revocation.rs:42-51 | A failed attempt leaves rows and snapshots alone, adds no blob, has deleted all before the failed index, and leaves the goal of the revocation unchanged |
| ShareRuns.RetryConverges | src-tauri/src/sharing/revocation.rs:11-14 | After any number of failed attempts the first attempt without a fault reaches the stores that one fault-free revocation reaches |
| ShareRuns.DeadStaysDead | src-tauri/src/sharing/revocation.rs:54-64 | A version with no active row never gets a row or a package again in any continuation, and its snapshot stays as it was left |
| ShareOutcomes.LastEventDecides | src-tauri/src/sharing/revocation.rs:54-64 | In every run and for every version the last event about it decides whether its snapshot is stored and whether it has an active row |
| ShareOutcomes.LeftoverSnapshotIff | src-tauri/src/sharing/revocation.rs:58-64 | A version without active rows still has its snapshot if and only if the last event about it was one of four: a snapshot insert that took effect but was reported as failed, a share that stored no row after it, a row marked but reported as failed, or a refused snapshot deletion |
| ShareOutcomes.SnapshotOutlivesShare | src-tauri/src/sharing/revocation.rs:58-64 | Share, then a revocation that cannot delete the snapshot: the wrapped key stays and unwraps, a retry is refused as already revoked, and no later run removes the snapshot |
| CloudPaths.SharedPrefixesDisjoint | src-tauri/src/sharing/cloud.rs:114 | No path lies under the prefixes of two share ids |
| CloudPaths.BlobPathPieces | src-tauri/src/sharing/cloud.rs:297 | The path of a blob piece by piece |
| CloudPaths.VaultNotShared | src-tauri/src/sharing/cloud.rs:367 | No vault blob lies under a share prefix |
| CloudPaths.ReceiptNotBlob | src-tauri/src/storage/cloud/rclone.rs:373-378 | A receipt is never a chunk blob |
| CloudPaths.FilledIsPicked | src-tauri/src/sharing/cloud.rs:299-319 | A cloud filled at some of the planned paths is the old cloud exactly when none is filled |
| DataPath.ShareRoundTrip | src-tauri/src/sharing/packages.rs:62-160 | For every file, chunk size, key, draw and recipient: import succeeds if and only if the file has a name and its chunk count fits a `u32`, and the download is the file, or one chunk of zeros for the empty file |
| DataPath.SlicesPartition | src-tauri/src/sharing/cloud.rs:281-285 | The slices are contiguous and joined give the plaintext |
| DataPath.EncryptSlice | src-tauri/src/sharing/cloud.rs:282-293 | Each blob is the padded slice sealed for its position under the drawn nonce; it never fails |
| DataPath.BlobLayout | src-tauri/src/sharing/cloud.rs:282-293 | The bytes of a blob: the drawn nonce; the padded chunk combined with the key stream of the share key and that nonce; the tag over file id, position and ciphertext |
| DataPath.BlobCarriesNonce | src-tauri/src/crypto/encrypt_chunk.rs:36-50 | The blob carries its drawn nonce in front |
| DataPath.PaddedChunkByte | src-tauri/src/sharing/cloud.rs:282-285 | A padded chunk is the file from its position on, then zeros |
| DataPath.DecryptReceivedShareBlobs | src-tauri/src/ui/sharing_commands.rs:1312-1387 | Yields the pieces in order or the first error; a count mismatch is refused |
| DataPath.ReassemblyUndoesChunking | src-tauri/src/ui/sharing_commands.rs:1347-1376 | With the true size, decrypting in order, joining and truncating undoes cutting, padding and encrypting |
| DataPath.DownloadFromRow | src-tauri/src/ui/sharing_commands.rs:898-910 | From a stored row and the staged blobs to the file; equal to the file if and only if it is not empty or chunks have size zero |
| DataPath.EmptyFileIsPadding | src-tauri/src/ui/sharing_commands.rs:906-910 | Without a recorded size the padding of an empty file is returned |
| DataPath.UncutWithoutSize | src-tauri/src/ui/sharing_commands.rs:906-910 | Without a recorded size no byte of any chunk is cut off |
| DataPath.MissingBlobFailsDownload | src-tauri/src/ui/sharing_commands.rs:1347-1352 | With any blob missing the download of a non-empty file is an I/O error |
| DataPath.MisplacedBlobRejected | src-tauri/src/ui/sharing_commands.rs:1358-1364 | If any staged blob was made under another key, for another file or for another position, the result is an error, unless the tag function collides on exactly those two contexts |
| Packages.CreateSharePackage | src-tauri/src/sharing/packages.rs:62-100 | The wire is the sealing of the payload made from snapshot and key |
| Packages.ValidatePayload | src-tauri/src/sharing/packages.rs:163-197 | Accepts if and only if ids and name are not empty, the count is the length, and every chunk name is a version 4 UUID |
| Packages.Inbox.ImportSharePackage | src-tauri/src/sharing/packages.rs:107-160 | Stores and returns the row of what the wire opens to, or changes nothing; which error when. A stored row is sound whoever made the package: version 4 chunk names, their count, a name, a file id |
| Packages.Inbox.InsertReceivedShare | src-tauri/src/storage/sharing.rs:186-232 | Inserts if and only if the id is a version 4 UUID that is not taken and the store does not fail; which error otherwise |
| Packages.PayloadRowDescribes | src-tauri/src/sharing/packages.rs:119-156 | The imported row is valid if and only if the name is not empty and the count fits, and then records the snapshot, with the key wrapped so that it unwraps again |
| Packages.ImportUndoesCreate | src-tauri/src/sharing/packages.rs:107-160 | Importing what was sealed for this recipient yields the row of the payload that was sealed |
| Packages.ImportedRowSound | src-tauri/src/sharing/packages.rs:119-156 | Every imported row has as many chunk names as it counts, all version 4 UUIDs, a name, a file id that parses, and a key that unwraps, under the drawn nonce |
| Packages.PayloadRefused | src-tauri/src/sharing/packages.rs:163-229 | Which payloads are refused with which error |
| Packages.SizeRecorded | src-tauri/src/sharing/packages.rs:138-141 | The size becomes one field of an object or null, panics on anything else, and is skipped for size zero |
| Hpke.Seal | src-tauri/src/sharing/hpke.rs:213-229 | The wire is `Sealed`, whose bytes `SealedLayout` gives |
| Hpke.Open | src-tauri/src/sharing/hpke.rs:236-260 | The answer is `Opened`, whose failures `OpenFailsIff` gives |
| Hpke.SealedLayout | src-tauri/src/sharing/hpke.rs:213-229 | The bytes of a sealed wire: the ephemeral public key; the plaintext combined with the key stream of the sealing's key and nonce from block 1 on; the hash of label, key, nonce and ciphertext |
| Hpke.KeyScheduleDerived | src-tauri/src/sharing/hpke.rs:178-208 | Key and nonce written out in HMAC calls, byte for byte: the shared secret is the salt of the extraction (section 5.1 of RFC 9180, sections 2.2 and 2.3 of RFC 5869) |
| Hpke.SharedSecretDerived | src-tauri/src/sharing/hpke.rs:108-122 | The shared secret written out in HMAC calls over the shared point, the encapsulated key and the recipient's key (section 4.1 of RFC 9180) |
| Hpke.KeysDependOnSecret | src-tauri/src/sharing/hpke.rs:178-208 | Different shared secrets give different keys, and different nonces, or exhibit an HMAC collision |
| Hpke.SecretsDependOnExchange | src-tauri/src/sharing/hpke.rs:108-149 | Different shared points, encapsulated keys or recipients give different shared secrets, or exhibit a collision |
| Hpke.SealingsUseOwnKeys | src-tauri/src/sharing/hpke.rs:213-229 | Two sealings from different exchanges that use one key exhibit a collision in one of four places |
| Hpke.SealFailsIff | src-tauri/src/sharing/hpke.rs:128-149 | Sealing fails exactly on an all-zero shared point or an excessive length |
| Hpke.OpenFailsIff | src-tauri/src/sharing/hpke.rs:236-260 | Opening fails exactly on a short wire, an all-zero shared point or a wrong tag; which error when |
| Hpke.OpenUndoesSeal | src-tauri/src/sharing/hpke.rs:213-260 | For every key pair, ephemeral secret and plaintext, opening undoes sealing whenever sealing succeeds, assuming only that the Diffie-Hellman sides agree |
| Hpke.OpenedWireWasSealed | src-tauri/src/sharing/hpke.rs:236-260 | Every wire that opens carries exactly the sealing of what it opens to |
| Hpke.DecapUndoesEncap | src-tauri/src/sharing/hpke.rs:128-171 | Both sides derive one shared secret |
| Hpke.LabeledCallsSeparated | src-tauri/src/sharing/hpke.rs:71-208 | Over all labeled calls of any two seals or opens, equal byte strings come only from equal calls, although label and data have no delimiter (section 4 of RFC 9180) |
| CtxAead.CtxSeal | src-tauri/src/sharing/ctx_aead.rs:46-59 | Encrypts in place from block 1 and commits to the result; fails, leaving the buffer, exactly on excessive length |
| CtxAead.CtxOpen | src-tauri/src/sharing/ctx_aead.rs:65-85 | Opens if and only if the commitment matches; the stream after its 64-byte discard is the block-wise keystream from block 1; on failure the buffer is unchanged |
| CtxAead.CommittedStringLayout | src-tauri/src/sharing/ctx_aead.rs:33-40 | The hashed string is label, key, nonce and ciphertext in that order |
| CtxAead.CommittedStringInjective | src-tauri/src/sharing/ctx_aead.rs:33-40 | The hashed string determines key, nonce and ciphertext at every length |
| CtxAead.OpensUnderOneKey | src-tauri/src/sharing/ctx_aead.rs:65-85 | A ciphertext and tag that open under two (key, nonce) pairs exhibit a hash collision |
| Aead.BlocksAreStream | src-tauri/src/sharing/ctx_aead.rs:74-80 | Block-wise encryption from a block equals the byte stream from that block's offset, at every length |
| Aead.CipherByte | src-tauri/src/sharing/ctx_aead.rs:74-80 | Every byte is combined with its own key stream byte (section 2.4 of RFC 8439) |
| Bytes.XorBits | src-tauri/src/sharing/ctx_aead.rs:79-80 | Exclusive or is taken bit by bit |
| Aead.CipherBlocksInvolution | src-tauri/src/crypto/decrypt_chunk.rs:57-62 | Encrypting twice is the identity |
| Aead.StreamCipher.ApplyKeystream | src-tauri/src/sharing/ctx_aead.rs:79-80 | The stateful stream continues where it stopped |
| Envelope.AadInjective | src-tauri/src/crypto/types/mod.rs:397-402 | The associated data of chunks, file-key wraps and recovery slots are equal if and only if kind, id and index are |
| Envelope.AadLayout | src-tauri/src/crypto/types/mod.rs:397-402 | The bytes of the three kinds of associated data; the position is big-endian |
| Envelope.WireLayout | src-tauri/src/crypto/encrypt_chunk.rs:36-51 | The bytes of an envelope: nonce, plaintext combined with the key stream from block 1 on, tag over associated data and ciphertext |
| Envelope.OpenChunkIff | src-tauri/src/crypto/decrypt_chunk.rs:33-63 | A blob opens to a chunk if and only if it is its sealing for that file and position; which error otherwise |
| Envelope.EncryptChunk | src-tauri/src/crypto/encrypt_chunk.rs:30-52 | The blob layout and its binding to file and position; the length error |
| Envelope.DecryptChunk | src-tauri/src/crypto/decrypt_chunk.rs:33-63 | Opens what was sealed for that file and position; short blobs and wrong tags are told apart |
| Envelope.ChecksumGuardsChunk | src-tauri/src/crypto/checksum.rs:31-38 | A received blob that passes the checksum recorded for a chunk decrypts to that chunk, or exhibits a hash collision; the chunk's own blob always passes |
| Envelope.OpenUndoesSeal | src-tauri/src/crypto/decrypt_chunk.rs:33-63 | Opening undoes sealing for every key, nonce, associated data and plaintext |
| Envelope.OpenedWireWasSealed | src-tauri/src/crypto/decrypt_chunk.rs:41-62 | An envelope opens only to what it is the sealing of |
| Envelope.OpensElsewhereOnlyByCollision | src-tauri/src/crypto/encrypt_chunk.rs:36-51 | An envelope opens in another scope or under another key only if the tag function collides on the two |
| Envelope.WrapFileKey | src-tauri/src/crypto/wrap_key.rs:40-62 | The 72-byte wrap of a key, bound to the file id |
| Envelope.UnwrapFileKey | src-tauri/src/crypto/wrap_key.rs:76-105 | Unwraps if and only if the envelope opens under that file id |
| Envelope.UnwrapUndoesWrap | src-tauri/src/crypto/wrap_key.rs:40-105 | Unwrapping undoes wrapping |
| Envelope.FileKeyBoundToFile | src-tauri/src/crypto/wrap_key.rs:76-105 | A wrap opens under another key-encryption key or for another file exactly when tags collide |
| Envelope.UnwrappedWasWrapped | src-tauri/src/crypto/wrap_key.rs:76-105 | Whatever unwraps is the wrap of what it unwraps to, for that file |
| Envelope.WrapCarriesNonce | src-tauri/src/crypto/wrap_key.rs:56-59 | A wrap carries its drawn nonce in front |
| Envelope.WrapMasterKeyForRecovery | src-tauri/src/crypto/recovery_wrap.rs:50-73 | The recovery slot, bound to the vault |
| Envelope.UnwrapMasterKeyFromRecovery | src-tauri/src/crypto/recovery_wrap.rs:85-109 | Unwraps if and only if the envelope opens for that vault |
| Envelope.RecoverySlotBoundToVault | src-tauri/src/crypto/recovery_wrap.rs:30-36 | A recovery slot opens for no other vault and in no other scope, unless the tag function collides |
| Uuid.ParseUndoesHyphenated | src-tauri/src/sharing/cloud.rs:603-607 | The hyphenated form parses back, for every UUID |
| Uuid.HyphenatedInjective | src-tauri/src/sharing/cloud.rs:99 | Distinct UUIDs have distinct texts |
| Uuid.ParsedHasNoSlash | src-tauri/src/sharing/cloud.rs:603-607 | No text that parses as a UUID contains a slash |
| Uuid.HyphenatedLayout | src-tauri/src/sharing/cloud.rs:99 | The hyphenated text digit by digit |
| Uuid.VersionDigit | src-tauri/src/sharing/cloud.rs:603-607 | The version test is on the digit after the second hyphen |
| Uuid.AcceptedForms | src-tauri/src/sharing/cloud.rs:603-607 | The four forms that parse |
| RcloneConf.BodiesConcat | src-tauri/src/sharing/b2_api.rs:227-256 | Cutting a config at a stanza boundary cuts its stanza bodies |
| RcloneConf.StanzaLocality | src-tauri/src/sharing/b2_api.rs:227-256 | Inserting or deleting, at a stanza boundary, a whole stanza with another name changes nothing that any of the three readers of a named remote looks at, for arbitrary configs |
| RcloneConf.EarlyResultIsFinal | src-tauri/src/sharing/b2_api.rs:252-254 | A result returned early is the result for the whole config, whatever follows |
| RcloneConf.PrintedPair | src/components/destination_selector.rs:127-130 | A printed line reads back as its key and its value without the white space around it |
| RcloneConf.SpacesListed | src-tauri/src/sharing/b2_api.rs:228 | Which characters are trimmed |
| B2Conf.ParseB2ApiKeysForRemote | src-tauri/src/sharing/b2_api.rs:218-264 | Equals the declarative reading of the stanzas of that name; its returns at the end of a stanza and at the end of the file are unreachable |
| B2Conf.B2KeysIff | src-tauri/src/sharing/b2_api.rs:222-263 | That reading is the first point, in the first stanza of that name that has one, where `type = b2`, an account and a key have all been seen, with the latest values; none if and only if no stanza is complete |
| B2Conf.OtherTypeHasNoKeys | src-tauri/src/sharing/b2_api.rs:246-254 | A stanza of another type is never read |
| B2Conf.LineOrderIrrelevant | src-tauri/src/sharing/b2_api.rs:243-254 | The order of the lines of a stanza is irrelevant if no key is repeated, inside any config |
| B2Conf.RepeatedKeyOrderMatters | src-tauri/src/sharing/b2_api.rs:246-254 | With a repeated key it matters |
| B2Conf.PrintThenParse | src/components/destination_selector.rs:127-130 | A printed stanza inside a larger config reads back as its trimmed account and key, whatever follows |
| B2Conf.PrintedKeysComeBack | src-tauri/src/sharing/b2_api.rs:218-264 | Exactly the printed account and key come back if and only if neither has white space around it |
| B2Conf.B2StanzaParsed | src-tauri/src/sharing/cloud.rs:401 | The lines of a printed B2 stanza |
| B2Conf.ParseB2CredentialsFromConf | src-tauri/src/sharing/b2_api.rs:270-301 | The first point where a section, or the lines before any header, has account, key and bucket after its `type = b2`, with the latest values |
| B2Conf.CredentialsIff | src-tauri/src/sharing/b2_api.rs:285-298 | With no key repeated, a section is read if and only if account, key and bucket all come after `type = b2` |
| B2Conf.AccountBeforeType | src-tauri/src/sharing/b2_api.rs:288-294 | A section with its account before its type: the reader of a named remote finds the keys, this one nothing |
| B2Conf.OtherProvidersInvisible | src-tauri/src/sharing/b2_api.rs:276-298 | A stanza without `type = b2` may be inserted or deleted at any boundary |
| GdriveConf.ParseGdriveOauthFromConf | src-tauri/src/sharing/gdrive_api.rs:57-105 | The first stanza of that name that as a whole is a Drive stanza with a usable token, with the latest values |
| GdriveConf.BuildGdriveResult | src-tauri/src/sharing/gdrive_api.rs:107-122 | Succeeds if and only if there is a token with a refresh token, and then carries that refresh token, the folder, and the client fields with the empty string for a missing one |
| GdriveConf.OAuthIff | src-tauri/src/sharing/gdrive_api.rs:87-98 | With no key repeated a stanza reads as exactly the values of its lines |
| GdriveConf.LineOrderIrrelevant | src-tauri/src/sharing/gdrive_api.rs:87-98 | The order of the lines of a stanza is irrelevant if no key is repeated, inside any config |
| GdriveConf.ParseGdriveAccessTokenFromConf | src-tauri/src/sharing/gdrive_api.rs:129-158 | The latest token of the first stanza of that name, of any type |
| GdriveConf.FirstTokenRead | src-tauri/src/sharing/gdrive_api.rs:129-158 | A config whose first stanza of that name has one last token line yields the looked-up field of that token, whatever else there is |
| VaultContext.VaultActions.Navigate | src/state/vault_context.rs:54-92 | One step of the protocol: bumps the generation and spawns a future |
| VaultContext.VaultActions.Refresh | src/state/vault_context.rs:100-103 | Navigates to the current path |
| VaultContext.VaultActions.Clear | src/state/vault_context.rs:119-122 | Bumps the generation and empties the view |
| VaultContext.VaultActions.CompleteFuture | src/state/vault_context.rs:67-90 | Commits only if the generation is current |
| VaultContext.RunKeepsInv | src/state/vault_context.rs:54-94 | In every interleaving each future in flight lags the current generation by the bumps since it was issued, modulo 2^32 |
| VaultContext.CommitsIffCurrent | src/state/vault_context.rs:67-90 | A response is committed if and only if the number of bumps since it was issued is a multiple of 2^32; otherwise the view is untouched |
| VaultContext.CommitShowsAnswer | src/state/vault_context.rs:67-103 | A committed listing shows the path that was asked for and its files; a refresh keeps the path shown when it was issued; a committed failure shows its message and keeps path and files |
| VaultContext.StartAndError | src/state/vault_context.rs:61-65 | What a start, an error and a clear do to the view; issuing a navigation does nothing yet |
| VaultContext.StaleResponseDiscarded | src/state/vault_context.rs:48-53 | A response issued before a later navigation or clear never writes, with fewer than 2^32 bumps in flight |
| VaultContext.ClearedStaysEmpty | src/state/vault_context.rs:113-122 | After `clear` path and files stay empty in every continuation until a navigation issued afterwards commits |
| VaultContext.BoundIsTight | src/state/vault_context.rs:58-59 | Exactly 2^32 clears in flight let the stale listing reappear in the cleared view |
| VaultContext.LoadingHasCause | src/state/vault_context.rs:61-90 | `loading` is on if and only if some start was followed by no clear and no commit |
| VaultContext.QuiescentLoading | src/state/vault_context.rs:58-92 | With nothing in flight `loading` is on if and only if the last future to start was already superseded and no clear or commit followed |
| VaultContext.DisciplinedRunsSettle | src/state/vault_context.rs:58-92 | If futures start in issue order and each before the next clear, `loading` is off once nothing is in flight |
| VaultContext.LateStartStaysLoading | src/state/vault_context.rs:119-122 | A start after `clear` leaves `loading` on |
| VaultContext.ReorderedStartStaysLoading | src/state/vault_context.rs:61-66 | So does an older future starting last |
| VaultPath.SplitPathSegments | src/vault.rs:88-101 | The root, then each segment with the path up to it |
| VaultPath.SplitJoin | src/vault.rs:88-113 | For every directory string and non-empty slash-free name, splitting the joined path gives the split of the directory and one more crumb |
| VaultPath.EndsDoNotCount | src/vault.rs:88-95 | Slashes at both ends do not count, and the first crumb is the root |
| VaultPath.JoinIsUniform | src/vault.rs:107-113 | The root case of the joiner is no exception to its general case |
| VaultPath.PathOfSplit | src/vault.rs:95-100 | The last crumb's path is the trimmed path behind a slash |
| VaultPath.CrumbLeadsBack | src/vault.rs:88-101 | Splitting a crumb's path gives that crumb and those before it if and only if its label is not empty |
| VaultPath.DoubleSlashLosesCrumb | src/vault.rs:88-101 | In `a//b` the middle crumb leads to the crumb before it |
| Fetch.Staging.FetchReceivedShareToLocal | src-tauri/src/sharing/cloud.rs:467-600 | The result, and the files left with their contents, for every pattern of faults; the temporary conf remains if and only if it cannot be removed, its write failed half-way, or it was there and this call never wrote it |
| Fetch.Staging.FetchChunks | src-tauri/src/sharing/cloud.rs:533-600 | All chunk paths in order, or the first failing chunk's error with the earlier files removed; the path check after UUID validation never fails |
| Fetch.Staging.CleanupTempFiles | src-tauri/src/sharing/cloud.rs:611-615 | Removes exactly the listed files that can be removed |
| Fetch.Staging.BuildShareTransport | src-tauri/src/sharing/cloud.rs:379-451 | Nothing is written unless all embedded fields are there; what the conf says |
| Fetch.B2ConfReadsBack | src-tauri/src/sharing/cloud.rs:401 | The B2 conf reads back as the key id and application key that the share carries |
| Fetch.DriveConfReadsBack | src-tauri/src/sharing/cloud.rs:435-439 | The Drive conf reads back as a read-only Drive remote with the share's service account and folder |
| Fetch.ConfStaysInStaging | src-tauri/src/sharing/cloud.rs:487 | The temporary conf of a share whose id has no slash lies inside the staging directory |
| Fetch.FetchedPathsExist | src-tauri/src/sharing/cloud.rs:533-600 | On success one existing path per chunk, in order, each one component inside the staging directory |
| Fetch.EarlierChunksGone | src-tauri/src/sharing/cloud.rs:535-591 | On an error no file of an earlier chunk remains, except those that cannot be removed |
| Fetch.FailingChunkStaysIff | src-tauri/src/sharing/cloud.rs:563-575 | The file of the chunk whose download failed remains if and only if it was written or there before, unless the same chunk was fetched earlier in this call and could be removed |
| Fetch.FailingChunkStays | src-tauri/src/sharing/cloud.rs:563-575 | A single download that writes its file and then reports an error leaves it behind |
| Fetch.HalfWrittenConfStays | src-tauri/src/sharing/cloud.rs:401-404 | After a write of the conf that failed half-way the call ends and the partial conf stays |
| Fetch.ChunkStaysInStaging | src-tauri/src/sharing/cloud.rs:544-549 | A chunk named by a UUID lands inside the staging directory, whatever that is |

## Left out

- Views, dialogs, toasts, drag and drop and the OAuth flow: user interface. Of the destination selector only the B2 stanza printer is modelled.
- HTTP calls to Backblaze and Google, the rclone process, the other Tauri commands, device monitoring: network and operating-system plumbing.
- Interleaved `create_share` and `revoke_share` calls: both read the active list and act later without a lock, so calls run one at a time here.
- Looking up and decrypting the file in the vault, `ensure_vault_blobs_local` included: `CreateShare` takes its result as a parameter.
- Random draws and clocks are parameters. UUIDs are assumed not to repeat, as `Draws.Fresh` says.
- JSON and base64 are parameters assumed to be inverse pairs; looking up a string in the token's JSON is a parameter.
- The internals of ChaCha20, Poly1305, BLAKE3, HMAC-SHA-256 and X25519: functions with the right lengths and no further law.
- Zeroisation, constant-time comparison, file permissions and message texts. The clamp of the credential lifetime and the credentials themselves: whatever the provider answers is an input.
- Local staging copies made while sharing, and receipts that recipients upload later.
- ShareService.ShareService.ListActiveSharesByFile: the order of the list is arbitrary; only its members matter to the callers.
- Aead.StreamCipher.ApplyKeystream: the panic at the end of the 256 GiB keystream is not modelled, because sealing has refused such lengths before.
- Fetch.ChunkStaysInStaging: paths are Unix paths; a UUID contains no separator of any other system either.
- Recipient.DownloadReceivedShare: does not model the receipt sent afterwards, progress reports, or the partial destination file.
- ShareOutcomes.DownloadIff: that the recipient's transport shows the share's folder as it is (`Serves`) is a hypothesis; it is derived for B2 in `RootVaultServes`, and the Drive folder lookup is not modelled.
- The other storage back ends, the metadata store, the session manager, sync and the vault header are not part of this model.
