/** The cryptographic primitives the repository takes from libraries, kept abstract, and the
    XChaCha20-Poly1305 in-place interface built on them. */
module Aead {
  import opened Bytes
  import opened Wrappers

  /** Library primitives as parameters. Lengths are part of the types; nothing else is assumed
      here, and a law that a theorem needs is one of its preconditions. */
  datatype Primitives = Primitives(
    // 64-byte XChaCha20 block for a key, a 24-byte nonce and a block counter.
    block: (Bytes32, Bytes24, nat) -> Bytes64,
    // Poly1305 tag over associated data and ciphertext.
    mac: (Bytes32, Bytes24, seq<byte>, seq<byte>) -> Bytes16,
    // BLAKE3.
    hash: seq<byte> -> Bytes32,
    // HMAC-SHA256 (key, message).
    hmac: (seq<byte>, seq<byte>) -> Bytes32,
    // X25519 public key of a secret, and the shared point of a secret and a public key.
    publicKey: Bytes32 -> Bytes32,
    dh: (Bytes32, Bytes32) -> Bytes32)

  const BLOCK_LEN := 64

  /** The AEAD refuses buffers of this many blocks or more (about 2^38 bytes). */
  const MAX_BLOCKS := 0xFFFF_FFFF

  predicate LengthAccepted(n: nat) {
    n / BLOCK_LEN < MAX_BLOCKS
  }

  /** The longest buffer that is accepted. */
  lemma LengthLimit(n: nat)
    ensures LengthAccepted(n) <==> n < 0x3F_FFFF_FFC0
  {
  }

  function XorSeq(a: seq<byte>, b: seq<byte>): (r: seq<byte>)
    requires |a| == |b|
    ensures |r| == |a|
  {
    seq(|a|, i requires 0 <= i < |a| => Xor(a[i], b[i]))
  }

  /** ChaCha20 encryption block by block from `counter`, section 2.4 of RFC 8439. */
  function CipherBlocks(p: Primitives, key: Bytes32, nonce: Bytes24, counter: nat, s: seq<byte>): (r: seq<byte>)
    ensures |r| == |s|
    decreases |s|
  {
    if |s| <= BLOCK_LEN then
      XorSeq(s, p.block(key, nonce, counter)[..|s|])
    else
      XorSeq(s[..BLOCK_LEN], p.block(key, nonce, counter)[..BLOCK_LEN])
      + CipherBlocks(p, key, nonce, counter + 1, s[BLOCK_LEN..])
  }

  /** Byte `pos` of the endless key stream. */
  function StreamByte(p: Primitives, key: Bytes32, nonce: Bytes24, pos: nat): byte {
    p.block(key, nonce, pos / BLOCK_LEN)[pos % BLOCK_LEN]
  }

  /** `s` combined with the key stream that starts at byte `pos`. */
  function XorStream(p: Primitives, key: Bytes32, nonce: Bytes24, pos: nat, s: seq<byte>): (r: seq<byte>)
    ensures |r| == |s|
  {
    seq(|s|, i requires 0 <= i < |s| => Xor(s[i], StreamByte(p, key, nonce, pos + i)))
  }

  lemma OneBlock(p: Primitives, key: Bytes32, nonce: Bytes24, counter: nat, s: seq<byte>)
    requires |s| <= BLOCK_LEN
    ensures XorSeq(s, p.block(key, nonce, counter)[..|s|]) == XorStream(p, key, nonce, BLOCK_LEN * counter, s)
  {
    forall i | 0 <= i < |s|
      ensures StreamByte(p, key, nonce, BLOCK_LEN * counter + i) == p.block(key, nonce, counter)[i]
    {
      assert (BLOCK_LEN * counter + i) / BLOCK_LEN == counter && (BLOCK_LEN * counter + i) % BLOCK_LEN == i;
    }
  }

  lemma FirstBlockSplit(p: Primitives, key: Bytes32, nonce: Bytes24, counter: nat, s: seq<byte>)
    requires |s| > BLOCK_LEN
    ensures XorStream(p, key, nonce, BLOCK_LEN * counter, s)
         == XorStream(p, key, nonce, BLOCK_LEN * counter, s[..BLOCK_LEN])
          + XorStream(p, key, nonce, BLOCK_LEN * (counter + 1), s[BLOCK_LEN..])
  {
    var whole := XorStream(p, key, nonce, BLOCK_LEN * counter, s);
    var head := XorStream(p, key, nonce, BLOCK_LEN * counter, s[..BLOCK_LEN]);
    var tail := XorStream(p, key, nonce, BLOCK_LEN * (counter + 1), s[BLOCK_LEN..]);
    forall i | 0 <= i < |whole|
      ensures whole[i] == (head + tail)[i]
    {
      if i >= BLOCK_LEN {
        assert BLOCK_LEN * (counter + 1) + (i - BLOCK_LEN) == BLOCK_LEN * counter + i;
      }
    }
  }

  /** Block-wise encryption from block `counter` is the stream from byte `64 * counter`, at every length. */
  lemma {:induction false} BlocksAreStream(p: Primitives, key: Bytes32, nonce: Bytes24, counter: nat, s: seq<byte>)
    ensures CipherBlocks(p, key, nonce, counter, s) == XorStream(p, key, nonce, BLOCK_LEN * counter, s)
    decreases |s|
  {
    if |s| <= BLOCK_LEN {
      OneBlock(p, key, nonce, counter, s);
    } else {
      OneBlock(p, key, nonce, counter, s[..BLOCK_LEN]);
      BlocksAreStream(p, key, nonce, counter + 1, s[BLOCK_LEN..]);
      FirstBlockSplit(p, key, nonce, counter, s);
    }
  }

  /** Every byte is combined with its own key stream byte: byte `i % 64` of block `counter + i / 64`. */
  lemma CipherByte(p: Primitives, key: Bytes32, nonce: Bytes24, counter: nat, s: seq<byte>, i: nat)
    requires i < |s|
    ensures CipherBlocks(p, key, nonce, counter, s)[i] == Xor(s[i], p.block(key, nonce, counter + i / 64)[i % 64])
  {
    BlocksAreStream(p, key, nonce, counter, s);
    assert (BLOCK_LEN * counter + i) / BLOCK_LEN == counter + i / 64 && (BLOCK_LEN * counter + i) % BLOCK_LEN == i % 64;
  }

  lemma XorStreamInvolution(p: Primitives, key: Bytes32, nonce: Bytes24, pos: nat, s: seq<byte>)
    ensures XorStream(p, key, nonce, pos, XorStream(p, key, nonce, pos, s)) == s
  {
    var twice := XorStream(p, key, nonce, pos, XorStream(p, key, nonce, pos, s));
    forall i | 0 <= i < |s|
      ensures twice[i] == s[i]
    {
      XorInvolution(s[i], StreamByte(p, key, nonce, pos + i));
    }
  }

  /** Encrypting twice with one key and nonce gives the input back. */
  lemma CipherBlocksInvolution(p: Primitives, key: Bytes32, nonce: Bytes24, counter: nat, s: seq<byte>)
    ensures CipherBlocks(p, key, nonce, counter, CipherBlocks(p, key, nonce, counter, s)) == s
  {
    BlocksAreStream(p, key, nonce, counter, s);
    BlocksAreStream(p, key, nonce, counter, CipherBlocks(p, key, nonce, counter, s));
    XorStreamInvolution(p, key, nonce, BLOCK_LEN * counter, s);
  }

  method Overwrite(buffer: array<byte>, s: seq<byte>)
    requires |s| == buffer.Length
    modifies buffer
    ensures buffer[..] == s
  {
    CopyInto(buffer, 0, s);
    assert buffer[..] == s;
  }

  /** `encrypt_in_place_detached`: block 0 feeds the tag key, so the payload starts at block 1. */
  method EncryptInPlace(p: Primitives, key: Bytes32, nonce: Bytes24, aad: seq<byte>, buffer: array<byte>)
    returns (r: Option<Bytes16>)
    modifies buffer
    ensures r.Some? <==> LengthAccepted(buffer.Length)
    ensures r.Some? ==> buffer[..] == CipherBlocks(p, key, nonce, 1, old(buffer[..]))
    ensures r.Some? ==> r.value == p.mac(key, nonce, aad, buffer[..])
    ensures r.None? ==> buffer[..] == old(buffer[..])
  {
    if LengthAccepted(buffer.Length) {
      Overwrite(buffer, CipherBlocks(p, key, nonce, 1, buffer[..]));
      r := Some(p.mac(key, nonce, aad, buffer[..]));
    } else {
      r := None;
    }
  }

  /** `decrypt_in_place_detached`: the tag is checked before the buffer is touched. */
  method DecryptInPlace(p: Primitives, key: Bytes32, nonce: Bytes24, aad: seq<byte>, buffer: array<byte>, tag: Bytes16)
    returns (ok: bool)
    modifies buffer
    ensures ok <==> LengthAccepted(buffer.Length) && tag == p.mac(key, nonce, aad, old(buffer[..]))
    ensures buffer[..] == if ok then CipherBlocks(p, key, nonce, 1, old(buffer[..])) else old(buffer[..])
  {
    ok := LengthAccepted(buffer.Length) && tag == p.mac(key, nonce, aad, buffer[..]);
    if ok {
      Overwrite(buffer, CipherBlocks(p, key, nonce, 1, buffer[..]));
    }
  }

  /** The raw XChaCha20 stream cipher: every call continues where the last one stopped. */
  class StreamCipher {
    const p: Primitives
    const key: Bytes32
    const nonce: Bytes24
    var position: nat

    constructor (p: Primitives, key: Bytes32, nonce: Bytes24)
      ensures this.p == p && this.key == key && this.nonce == nonce && position == 0
    {
      this.p, this.key, this.nonce, position := p, key, nonce, 0;
    }

    method ApplyKeystream(buffer: array<byte>)
      modifies this`position, buffer
      ensures position == old(position) + buffer.Length
      ensures buffer[..] == XorStream(p, key, nonce, old(position), old(buffer[..]))
    {
      for i := 0 to buffer.Length
        invariant position == old(position) + i
        invariant forall j :: 0 <= j < i ==>
                    buffer[j] == Xor(old(buffer[j]), StreamByte(p, key, nonce, old(position) + j))
        invariant forall j :: i <= j < buffer.Length ==> buffer[j] == old(buffer[j])
      {
        buffer[i] := Xor(buffer[i], StreamByte(p, key, nonce, position));
        position := position + 1;
      }
    }
  }
}
