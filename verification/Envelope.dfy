/** The three authenticated envelopes of the crypto layer: chunk blobs, wrapped file keys and
    wrapped master keys. All share the wire layout `nonce (24) | ciphertext | tag (16)` and
    differ in the associated data that ties an envelope to its place. */
module Envelope {
  import opened Aead
  import opened Bytes
  import opened Wrappers

  const NONCE_LEN := 24
  const TAG_LEN := 16
  const KEY_LEN := 32
  const MIN_BLOB_LEN := NONCE_LEN + TAG_LEN
  const WRAPPED_LEN := NONCE_LEN + KEY_LEN + TAG_LEN

  /** Where an envelope belongs. */
  datatype Scope =
    | Chunk(fileId: Bytes16, index: nat)
    | FileKey(fileId: Bytes16)
    | Recovery(vaultId: Bytes16)
  {
    predicate Valid() {
      Chunk? ==> index < U32_LIMIT
    }
  }

  /** `b"arx-runa recovery v1"` */
  const RECOVERY_PREFIX: seq<byte> :=
    [97, 114, 120, 45, 114, 117, 110, 97, 32, 114, 101, 99, 111, 118, 101, 114, 121, 32, 118, 49]

  function BuildChunkAad(fileId: Bytes16, index: nat): (aad: seq<byte>)
    requires index < U32_LIMIT
    ensures |aad| == 20
  {
    fileId + Be32(index)
  }

  function BuildRecoveryAad(vaultId: Bytes16): (aad: seq<byte>)
    ensures |aad| == 36
  {
    RECOVERY_PREFIX + vaultId
  }

  function Aad(scope: Scope): seq<byte>
    requires scope.Valid()
  {
    match scope
    case Chunk(fileId, index) => BuildChunkAad(fileId, index)
    case FileKey(fileId) => fileId
    case Recovery(vaultId) => BuildRecoveryAad(vaultId)
  }

  /** The associated data of each kind, byte by byte. */
  lemma AadLayout(id: Bytes16, index: nat)
    requires index < U32_LIMIT
    ensures var aad := Aad(Chunk(id, index));
            && |aad| == 20 && aad[..16] == id
            && 0x100_0000 * aad[16] as int + 0x1_0000 * aad[17] as int + 0x100 * aad[18] as int + aad[19] as int
               == index
    ensures Aad(FileKey(id)) == id
    ensures Aad(Recovery(id)) == Ascii("arx-runa recovery v1") + id
  {
    BigEndian(index);
    assert Aad(Chunk(id, index))[16..] == Be32(index);
    assert RECOVERY_PREFIX == Ascii("arx-runa recovery v1");
  }

  /** Associated data determines the scope: injective within each kind, disjoint across kinds. */
  lemma AadInjective(s: Scope, t: Scope)
    requires s.Valid() && t.Valid()
    ensures Aad(s) == Aad(t) <==> s == t
  {
    if Aad(s) == Aad(t) {
      assert |Aad(s)| == |Aad(t)|;
      match s
      case Chunk(fileId, index) =>
        ConcatInjective(fileId, Be32(index), t.fileId, Be32(t.index));
        Be32Injective(index, t.index);
      case FileKey(_) =>
      case Recovery(vaultId) =>
        ConcatInjective(RECOVERY_PREFIX, vaultId, RECOVERY_PREFIX, t.vaultId);
    }
  }

  /** What an envelope looks like on the wire. */
  function SealWire(p: Primitives, key: Bytes32, nonce: Bytes24, aad: seq<byte>, plaintext: seq<byte>)
    : (wire: seq<byte>)
    ensures |wire| == |plaintext| + MIN_BLOB_LEN
  {
    var ciphertext := CipherBlocks(p, key, nonce, 1, plaintext);
    nonce + ciphertext + p.mac(key, nonce, aad, ciphertext)
  }

  function WireNonce(wire: seq<byte>): (nonce: Bytes24)
    requires |wire| >= MIN_BLOB_LEN
  {
    wire[..NONCE_LEN]
  }

  function WireCiphertext(wire: seq<byte>): seq<byte>
    requires |wire| >= MIN_BLOB_LEN
  {
    wire[NONCE_LEN..|wire| - TAG_LEN]
  }

  function WireTag(wire: seq<byte>): (tag: Bytes16)
    requires |wire| >= MIN_BLOB_LEN
  {
    wire[|wire| - TAG_LEN..]
  }

  function OpenWire(p: Primitives, key: Bytes32, aad: seq<byte>, wire: seq<byte>): (plaintext: Option<seq<byte>>)
    requires |wire| >= MIN_BLOB_LEN
  {
    var nonce, ciphertext := WireNonce(wire), WireCiphertext(wire);
    if LengthAccepted(|ciphertext|) && WireTag(wire) == p.mac(key, nonce, aad, ciphertext) then
      Some(CipherBlocks(p, key, nonce, 1, ciphertext))
    else
      None
  }

  lemma SealedParts(p: Primitives, key: Bytes32, nonce: Bytes24, aad: seq<byte>, plaintext: seq<byte>)
    ensures var wire := SealWire(p, key, nonce, aad, plaintext);
            var ciphertext := CipherBlocks(p, key, nonce, 1, plaintext);
            && WireNonce(wire) == nonce
            && WireCiphertext(wire) == ciphertext
            && WireTag(wire) == p.mac(key, nonce, aad, ciphertext)
  {
  }

  /** The wire, byte by byte: the nonce; the plaintext combined with the key stream of that key and nonce from block
      1 on; the tag over associated data and ciphertext. */
  lemma WireLayout(p: Primitives, key: Bytes32, nonce: Bytes24, aad: seq<byte>, plaintext: seq<byte>)
    ensures var wire, n := SealWire(p, key, nonce, aad, plaintext), |plaintext|;
            && |wire| == 24 + n + 16 && wire[..24] == nonce
            && (forall i :: 0 <= i < n ==>
                  wire[24 + i] == Xor(plaintext[i], p.block(key, nonce, 1 + i / 64)[i % 64]))
            && wire[24 + n..] == p.mac(key, nonce, aad, wire[24..24 + n])
  {
    SealedParts(p, key, nonce, aad, plaintext);
    var ciphertext := CipherBlocks(p, key, nonce, 1, plaintext);
    forall i | 0 <= i < |plaintext|
      ensures ciphertext[i] == Xor(plaintext[i], p.block(key, nonce, 1 + i / 64)[i % 64])
    {
      CipherByte(p, key, nonce, 1, plaintext, i);
    }
  }

  /** Opening undoes sealing for every key, nonce, associated data and plaintext. */
  lemma OpenUndoesSeal(p: Primitives, key: Bytes32, nonce: Bytes24, aad: seq<byte>, plaintext: seq<byte>)
    requires LengthAccepted(|plaintext|)
    ensures OpenWire(p, key, aad, SealWire(p, key, nonce, aad, plaintext)) == Some(plaintext)
  {
    SealedParts(p, key, nonce, aad, plaintext);
    CipherBlocksInvolution(p, key, nonce, 1, plaintext);
  }

  /** Conversely an envelope opens only if it is the sealing of what it opens to. */
  lemma OpenedWireWasSealed(p: Primitives, key: Bytes32, aad: seq<byte>, wire: seq<byte>)
    requires |wire| >= MIN_BLOB_LEN
    requires OpenWire(p, key, aad, wire).Some?
    ensures wire == SealWire(p, key, WireNonce(wire), aad, OpenWire(p, key, aad, wire).value)
  {
    CipherBlocksInvolution(p, key, WireNonce(wire), 1, WireCiphertext(wire));
    assert wire == WireNonce(wire) + WireCiphertext(wire) + WireTag(wire);
  }

  /** Two different (key, scope) pairs under which one ciphertext gets one tag. */
  ghost predicate TagCollision(p: Primitives, nonce: Bytes24, ciphertext: seq<byte>,
                               key: Bytes32, s: Scope, key': Bytes32, s': Scope)
    requires s.Valid() && s'.Valid()
  {
    && (key, Aad(s)) != (key', Aad(s'))
    && p.mac(key, nonce, Aad(s), ciphertext) == p.mac(key', nonce, Aad(s'), ciphertext)
  }

  /** An envelope sealed in one scope opens under another key or in another scope exactly when
      the tag function collides on the two: no blob moves between files, positions, vaults or kinds. */
  lemma OpensElsewhereOnlyByCollision(p: Primitives, nonce: Bytes24, plaintext: seq<byte>,
                                      key: Bytes32, s: Scope, key': Bytes32, s': Scope)
    requires s.Valid() && s'.Valid() && LengthAccepted(|plaintext|)
    ensures var ciphertext := CipherBlocks(p, key, nonce, 1, plaintext);
            var wire := SealWire(p, key, nonce, Aad(s), plaintext);
            OpenWire(p, key', Aad(s'), wire).Some? <==>
              (key' == key && s' == s) || TagCollision(p, nonce, ciphertext, key, s, key', s')
  {
    SealedParts(p, key, nonce, Aad(s), plaintext);
    AadInjective(s, s');
  }

  /** Encrypts one chunk in place and lays out the blob. The nonce is the caller's random draw. */
  method EncryptChunk(p: Primitives, plaintext: array<byte>, fileKey: Bytes32, fileId: Bytes16, index: nat,
                      nonce: Bytes24)
    returns (r: Result<seq<byte>>)
    requires index < U32_LIMIT
    modifies plaintext
    ensures r == ChunkBlob(p, fileKey, fileId, index, nonce, old(plaintext[..]))
    ensures r.Ok? <==> LengthAccepted(plaintext.Length)
    ensures r.Err? ==> r.error == EncryptionFailed
  {
    var aad := BuildChunkAad(fileId, index);
    var tag := EncryptInPlace(p, fileKey, nonce, aad, plaintext);
    if tag.None? {
      return Err(EncryptionFailed);
    }
    var blob: seq<byte> := nonce;
    blob := blob + plaintext[..];
    blob := blob + tag.value;
    return Ok(blob);
  }

  function ChunkBlob(p: Primitives, fileKey: Bytes32, fileId: Bytes16, index: nat, nonce: Bytes24, plaintext: seq<byte>)
    : (r: Result<seq<byte>>)
    requires index < U32_LIMIT
  {
    if LengthAccepted(|plaintext|) then
      Ok(SealWire(p, fileKey, nonce, Aad(Chunk(fileId, index)), plaintext))
    else
      Err(EncryptionFailed)
  }

  /** A blob whose checksum was compared; the only input `DecryptChunk` takes. */
  datatype VerifiedBlob = VerifiedBlob(bytes: seq<byte>)

  function VerifyChecksum(p: Primitives, blob: seq<byte>, expected: Bytes32): (r: Result<VerifiedBlob>)
    ensures r.Ok? <==> p.hash(blob) == expected
    ensures r.Ok? ==> r.value.bytes == blob
    ensures r.Err? ==> r.error == ChecksumMismatch
  {
    if p.hash(blob) == expected then Ok(VerifiedBlob(blob)) else Err(ChecksumMismatch)
  }

  method DecryptChunk(p: Primitives, blob: VerifiedBlob, fileKey: Bytes32, fileId: Bytes16, index: nat)
    returns (r: Result<seq<byte>>)
    requires index < U32_LIMIT
    ensures r == OpenChunk(p, blob.bytes, fileKey, fileId, index)
  {
    var bytes := blob.bytes;
    if |bytes| < MIN_BLOB_LEN {
      return Err(InvalidBlobFormat(MIN_BLOB_LEN, |bytes|));
    }
    var nonce, rest := bytes[..NONCE_LEN], bytes[NONCE_LEN..];
    var ciphertext, tag := rest[..|rest| - TAG_LEN], rest[|rest| - TAG_LEN..];
    assert ciphertext == WireCiphertext(bytes) && tag == WireTag(bytes);
    var aad := BuildChunkAad(fileId, index);
    var buffer := new byte[|ciphertext|];
    Overwrite(buffer, ciphertext);
    var ok := DecryptInPlace(p, fileKey, nonce, aad, buffer, tag);
    if ok {
      return Ok(buffer[..]);
    }
    return Err(DecryptionFailed);
  }

  function OpenChunk(p: Primitives, blob: seq<byte>, fileKey: Bytes32, fileId: Bytes16, index: nat)
    : (r: Result<seq<byte>>)
    requires index < U32_LIMIT
  {
    if |blob| < MIN_BLOB_LEN then
      Err(InvalidBlobFormat(MIN_BLOB_LEN, |blob|))
    else
      match OpenWire(p, fileKey, Aad(Chunk(fileId, index)), blob)
      case Some(plaintext) => Ok(plaintext)
      case None => Err(DecryptionFailed)
  }

  /** A chunk blob opens to `x` if and only if it is long enough and is the sealing of `x`, of accepted length, for
      that file and position; otherwise the answer tells a short blob from a wrong one. */
  lemma OpenChunkIff(p: Primitives, blob: seq<byte>, fileKey: Bytes32, fileId: Bytes16, index: nat, x: seq<byte>)
    requires index < U32_LIMIT
    ensures OpenChunk(p, blob, fileKey, fileId, index) == Ok(x) <==>
              |blob| >= 40 && LengthAccepted(|x|) &&
              blob == SealWire(p, fileKey, blob[..24], Aad(Chunk(fileId, index)), x)
    ensures |blob| < 40 ==> OpenChunk(p, blob, fileKey, fileId, index) == Err(InvalidBlobFormat(40, |blob|))
    ensures |blob| >= 40 && OpenChunk(p, blob, fileKey, fileId, index).Err? ==>
              OpenChunk(p, blob, fileKey, fileId, index) == Err(DecryptionFailed)
  {
    if |blob| >= 40 {
      var aad := Aad(Chunk(fileId, index));
      if OpenChunk(p, blob, fileKey, fileId, index).Ok? {
        OpenedWireWasSealed(p, fileKey, aad, blob);
      }
      if LengthAccepted(|x|) {
        OpenUndoesSeal(p, fileKey, blob[..24], aad, x);
      }
    }
  }

  /** A received blob that passes the checksum recorded for a chunk decrypts to that chunk, or it exhibits a
      collision of the hash; the chunk's own blob always passes. */
  lemma ChecksumGuardsChunk(p: Primitives, fileKey: Bytes32, fileId: Bytes16, index: nat, nonce: Bytes24,
                            plaintext: seq<byte>, received: seq<byte>)
    requires index < U32_LIMIT && LengthAccepted(|plaintext|)
    ensures var blob := ChunkBlob(p, fileKey, fileId, index, nonce, plaintext).value;
            match VerifyChecksum(p, received, p.hash(blob))
            case Err(_) => received != blob
            case Ok(verified) =>
              || OpenChunk(p, verified.bytes, fileKey, fileId, index) == Ok(plaintext)
              || (received != blob && p.hash(received) == p.hash(blob))
  {
    OpenUndoesSeal(p, fileKey, nonce, Aad(Chunk(fileId, index)), plaintext);
  }

  /** Wraps a 32-byte key in a 72-byte array filled range by range. */
  method WrapKey(p: Primitives, secret: Bytes32, aad: seq<byte>, wrappingKey: Bytes32, nonce: Bytes24)
    returns (wire: Bytes72)
    ensures wire == SealWire(p, wrappingKey, nonce, aad, secret)
  {
    hide CipherBlocks;
    var ciphertext := new byte[KEY_LEN];
    Overwrite(ciphertext, secret);
    var tag := EncryptInPlace(p, wrappingKey, nonce, aad, ciphertext);
    assert tag.Some?;  // 32 bytes are always accepted: the `KeyWrapFailed` exit is unreachable
    var out := new byte[WRAPPED_LEN];
    CopyInto(out, 0, nonce);
    CopyInto(out, NONCE_LEN, ciphertext[..]);
    CopyInto(out, NONCE_LEN + KEY_LEN, tag.value);
    assert out[..] == nonce + ciphertext[..] + tag.value;
    return out[..];
  }

  method UnwrapKey(p: Primitives, wrapped: Bytes72, aad: seq<byte>, wrappingKey: Bytes32)
    returns (r: Result<Bytes32>)
    ensures r.Ok? <==> OpenWire(p, wrappingKey, aad, wrapped).Some?
    ensures r.Ok? ==> OpenWire(p, wrappingKey, aad, wrapped).value == r.value
    ensures r.Err? ==> r.error == DecryptionFailed
  {
    var nonce := wrapped[..NONCE_LEN];
    var ciphertext := wrapped[NONCE_LEN..NONCE_LEN + KEY_LEN];
    var tag := wrapped[NONCE_LEN + KEY_LEN..];
    var buffer := new byte[KEY_LEN];
    Overwrite(buffer, ciphertext);
    var ok := DecryptInPlace(p, wrappingKey, nonce, aad, buffer, tag);
    if ok {
      return Ok(buffer[..]);
    }
    return Err(DecryptionFailed);
  }

  function WrappedFileKey(p: Primitives, fileKey: Bytes32, fileId: Bytes16, kek: Bytes32, nonce: Bytes24): Bytes72 {
    SealWire(p, kek, nonce, Aad(FileKey(fileId)), fileKey)
  }

  function UnwrappedFileKey(p: Primitives, wrapped: Bytes72, fileId: Bytes16, kek: Bytes32): Option<seq<byte>> {
    OpenWire(p, kek, Aad(FileKey(fileId)), wrapped)
  }

  method WrapFileKey(p: Primitives, fileKey: Bytes32, fileId: Bytes16, kek: Bytes32, nonce: Bytes24)
    returns (wire: Bytes72)
    ensures wire == WrappedFileKey(p, fileKey, fileId, kek, nonce)
  {
    wire := WrapKey(p, fileKey, fileId, kek, nonce);
  }

  /** The vault's key-encryption key and the file id give back exactly the wrapped key. */
  lemma UnwrapUndoesWrap(p: Primitives, fileKey: Bytes32, fileId: Bytes16, kek: Bytes32, nonce: Bytes24)
    ensures UnwrappedFileKey(p, WrappedFileKey(p, fileKey, fileId, kek, nonce), fileId, kek) == Some(fileKey)
  {
    OpenUndoesSeal(p, kek, nonce, Aad(FileKey(fileId)), fileKey);
  }

  /** A wrapped file key opens under another key-encryption key or for another file exactly when tags collide. */
  lemma FileKeyBoundToFile(p: Primitives, fileKey: Bytes32, fileId: Bytes16, kek: Bytes32, nonce: Bytes24,
                           fileId': Bytes16, kek': Bytes32)
    ensures UnwrappedFileKey(p, WrappedFileKey(p, fileKey, fileId, kek, nonce), fileId', kek').Some? <==>
              (kek' == kek && fileId' == fileId) ||
              TagCollision(p, nonce, CipherBlocks(p, kek, nonce, 1, fileKey),
                           kek, FileKey(fileId), kek', FileKey(fileId'))
  {
    OpensElsewhereOnlyByCollision(p, nonce, fileKey, kek, FileKey(fileId), kek', FileKey(fileId'));
  }

  /** Whatever unwraps is the wrap of what it unwraps to, for that file and under the nonce it carries. */
  lemma UnwrappedWasWrapped(p: Primitives, wrapped: Bytes72, fileId: Bytes16, kek: Bytes32)
    requires UnwrappedFileKey(p, wrapped, fileId, kek).Some?
    ensures |UnwrappedFileKey(p, wrapped, fileId, kek).value| == 32
    ensures wrapped == WrappedFileKey(p, UnwrappedFileKey(p, wrapped, fileId, kek).value, fileId, kek, wrapped[..24])
  {
    OpenedWireWasSealed(p, kek, Aad(FileKey(fileId)), wrapped);
  }

  /** The wrap carries the drawn nonce in front. */
  lemma WrapCarriesNonce(p: Primitives, fileKey: Bytes32, fileId: Bytes16, kek: Bytes32, nonce: Bytes24)
    ensures WrappedFileKey(p, fileKey, fileId, kek, nonce)[..24] == nonce
  {
    WireLayout(p, kek, nonce, Aad(FileKey(fileId)), fileKey);
  }

  method UnwrapFileKey(p: Primitives, wrapped: Bytes72, fileId: Bytes16, kek: Bytes32)
    returns (r: Result<Bytes32>)
    ensures r.Ok? <==> UnwrappedFileKey(p, wrapped, fileId, kek).Some?
    ensures r.Ok? ==> UnwrappedFileKey(p, wrapped, fileId, kek).value == r.value
    ensures r.Err? ==> r.error == DecryptionFailed
  {
    r := UnwrapKey(p, wrapped, fileId, kek);
  }

  method WrapMasterKeyForRecovery(p: Primitives, masterKey: Bytes32, recoveryKey: Bytes32, vaultId: Bytes16,
                                  nonce: Bytes24)
    returns (wire: Bytes72)
    ensures wire == SealWire(p, recoveryKey, nonce, Aad(Recovery(vaultId)), masterKey)
  {
    wire := WrapKey(p, masterKey, BuildRecoveryAad(vaultId), recoveryKey, nonce);
  }

  method UnwrapMasterKeyFromRecovery(p: Primitives, wrapped: Bytes72, recoveryKey: Bytes32, vaultId: Bytes16)
    returns (r: Result<Bytes32>)
    ensures r.Ok? <==> OpenWire(p, recoveryKey, Aad(Recovery(vaultId)), wrapped).Some?
    ensures r.Ok? ==> OpenWire(p, recoveryKey, Aad(Recovery(vaultId)), wrapped).value == r.value
    ensures r.Err? ==> r.error == DecryptionFailed
  {
    r := UnwrapKey(p, wrapped, BuildRecoveryAad(vaultId), recoveryKey);
  }

  /** A recovery slot gives its master key back in its own vault; in another vault, or as a file-key
      wrap of any file, it opens exactly when tags collide. */
  lemma RecoverySlotBoundToVault(p: Primitives, masterKey: Bytes32, recoveryKey: Bytes32, vaultId: Bytes16,
                                 nonce: Bytes24, elsewhere: Scope)
    requires elsewhere.Valid() && elsewhere != Recovery(vaultId)
    ensures var wire := SealWire(p, recoveryKey, nonce, Aad(Recovery(vaultId)), masterKey);
            && OpenWire(p, recoveryKey, Aad(Recovery(vaultId)), wire) == Some(masterKey)
            && (OpenWire(p, recoveryKey, Aad(elsewhere), wire).Some? <==>
                TagCollision(p, nonce, CipherBlocks(p, recoveryKey, nonce, 1, masterKey),
                             recoveryKey, Recovery(vaultId), recoveryKey, elsewhere))
  {
    OpenUndoesSeal(p, recoveryKey, nonce, Aad(Recovery(vaultId)), masterKey);
    OpensElsewhereOnlyByCollision(p, nonce, masterKey, recoveryKey, Recovery(vaultId), recoveryKey, elsewhere);
  }
}
