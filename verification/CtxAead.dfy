/** CTX-ChaCha20-Poly1305: the Poly1305 tag is replaced by a 32-byte BLAKE3 commitment to key,
    nonce and ciphertext. */
module CtxAead {
  import opened Aead
  import opened Bytes
  import opened Wrappers

  /** `b"arx-runa-ctx-v1"` */
  const CTX_DOMAIN_LABEL: seq<byte> := Ascii("arx-runa-ctx-v1")

  /** The string that is hashed. */
  function CommittedString(key: Bytes32, nonce: Bytes24, ciphertext: seq<byte>): seq<byte> {
    CTX_DOMAIN_LABEL + key + nonce + ciphertext
  }

  function ComputeCommitment(p: Primitives, key: Bytes32, nonce: Bytes24, ciphertext: seq<byte>): Bytes32 {
    p.hash(CommittedString(key, nonce, ciphertext))
  }

  /** The hashed string: the label, then key, nonce and ciphertext. */
  lemma CommittedStringLayout(key: Bytes32, nonce: Bytes24, ciphertext: seq<byte>)
    ensures var s := CommittedString(key, nonce, ciphertext);
            && |s| == 71 + |ciphertext| && s[..15] == Ascii("arx-runa-ctx-v1")
            && s[15..47] == key && s[47..71] == nonce && s[71..] == ciphertext
  {
  }

  /** The hashed string determines key, nonce and ciphertext, at every ciphertext length. */
  lemma CommittedStringInjective(k: Bytes32, n: Bytes24, c: seq<byte>, k': Bytes32, n': Bytes24, c': seq<byte>)
    requires CommittedString(k, n, c) == CommittedString(k', n', c')
    ensures k == k' && n == n' && c == c'
  {
    ConcatInjective(CTX_DOMAIN_LABEL + k + n, c, CTX_DOMAIN_LABEL + k' + n', c');
    ConcatInjective(CTX_DOMAIN_LABEL + k, n, CTX_DOMAIN_LABEL + k', n');
    ConcatInjective(CTX_DOMAIN_LABEL, k, CTX_DOMAIN_LABEL, k');
  }

  /** What opening yields, or `None` when the commitment does not match. */
  function Opened(p: Primitives, key: Bytes32, nonce: Bytes24, ciphertext: seq<byte>, tag: Bytes32): Option<seq<byte>> {
    if ComputeCommitment(p, key, nonce, ciphertext) == tag then
      Some(CipherBlocks(p, key, nonce, 1, ciphertext))
    else
      None
  }

  /** If one ciphertext and tag open under two different (key, nonce) pairs, the two hashed strings
      are a collision of the hash: a pair commits to one key and nonce. */
  lemma OpensUnderOneKey(p: Primitives, ciphertext: seq<byte>, tag: Bytes32, k: Bytes32, n: Bytes24, k': Bytes32,
                         n': Bytes24)
    requires Opened(p, k, n, ciphertext, tag).Some? && Opened(p, k', n', ciphertext, tag).Some?
    requires (k, n) != (k', n')
    ensures var x, y := CommittedString(k, n, ciphertext), CommittedString(k', n', ciphertext);
            x != y && p.hash(x) == p.hash(y)
  {
    if CommittedString(k, n, ciphertext) == CommittedString(k', n', ciphertext) {
      CommittedStringInjective(k, n, ciphertext, k', n', ciphertext);
    }
  }

  /** Encrypts the buffer in place and returns the commitment to what it then holds. */
  method CtxSeal(p: Primitives, key: Bytes32, nonce: Bytes24, buffer: array<byte>) returns (r: Result<Bytes32>)
    modifies buffer
    ensures r.Ok? <==> LengthAccepted(buffer.Length)
    ensures r.Ok? ==> buffer[..] == CipherBlocks(p, key, nonce, 1, old(buffer[..]))
    ensures r.Ok? ==> r.value == ComputeCommitment(p, key, nonce, buffer[..])
    ensures r.Err? ==> r.error == AuthenticationFailed && buffer[..] == old(buffer[..])
  {
    var poly1305Tag := EncryptInPlace(p, key, nonce, [], buffer);
    if poly1305Tag.None? {
      return Err(AuthenticationFailed);
    }
    return Ok(ComputeCommitment(p, key, nonce, buffer[..]));
  }

  /** Checks the commitment, then runs the raw stream over the buffer after discarding the 64 bytes
      of block 0. The stream is thereby in step with the block-wise encryption from block 1. */
  method CtxOpen(p: Primitives, key: Bytes32, nonce: Bytes24, buffer: array<byte>, claimedTag: Bytes32)
    returns (r: Result<()>)
    modifies buffer
    ensures r.Ok? <==> Opened(p, key, nonce, old(buffer[..]), claimedTag).Some?
    ensures r.Ok? ==> buffer[..] == Opened(p, key, nonce, old(buffer[..]), claimedTag).value
    ensures r.Err? ==> r.error == AuthenticationFailed && buffer[..] == old(buffer[..])
  {
    var expectedTag := ComputeCommitment(p, key, nonce, buffer[..]);
    if expectedTag == claimedTag {
      var stream := new StreamCipher(p, key, nonce);
      var discard := new byte[64](_ => 0);
      stream.ApplyKeystream(discard);
      stream.ApplyKeystream(buffer);
      BlocksAreStream(p, key, nonce, 1, old(buffer[..]));
      return Ok(());
    }
    return Err(AuthenticationFailed);
  }
}
