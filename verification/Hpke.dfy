/** HPKE base mode over DHKEM(X25519, HKDF-SHA256), sections 4, 4.1 and 5.1 of RFC 9180, with the
    CTX construction as AEAD. Wire format: `enc (32) | ciphertext | tag (32)`. */
module Hpke {
  import opened Aead
  import opened Bytes
  import CtxAead
  import opened Wrappers

  const VERSION_LABEL: seq<byte> := Ascii("HPKE-v1")
  const KEM_SUITE_ID: seq<byte> := Ascii("KEM") + [0x00, 0x20]
  const SUITE_ID: seq<byte> := Ascii("HPKE") + [0x00, 0x20, 0x00, 0x01, 0x00, 0x03]
  const HPKE_SHARE_INFO: seq<byte> := Ascii("arx-runa-share")
  const ENC_LEN := 32
  const CTX_TAG_LEN := 32
  const MIN_WIRE_LEN := ENC_LEN + CTX_TAG_LEN

  /** HKDF-SHA256, sections 2.2 and 2.3 of RFC 5869. */
  function HkdfExtract(p: Primitives, salt: seq<byte>, ikm: seq<byte>): Bytes32 {
    p.hmac(salt, ikm)
  }

  function HkdfBlock(p: Primitives, prk: Bytes32, info: seq<byte>, i: nat): (t: seq<byte>)
    requires i <= 255
    ensures |t| == if i == 0 then 0 else 32
  {
    if i == 0 then [] else p.hmac(prk, HkdfBlock(p, prk, info, i - 1) + info + [i as byte])
  }

  function HkdfOutput(p: Primitives, prk: Bytes32, info: seq<byte>, n: nat): (okm: seq<byte>)
    requires n <= 255
    ensures |okm| == 32 * n
  {
    if n == 0 then [] else HkdfOutput(p, prk, info, n - 1) + HkdfBlock(p, prk, info, n)
  }

  function HkdfExpand(p: Primitives, prk: Bytes32, info: seq<byte>, length: nat): (r: Result<seq<byte>>)
    ensures r.Ok? <==> length <= 255 * 32
    ensures r.Ok? ==> |r.value| == length
  {
    if length <= 255 * 32 then
      Ok(HkdfOutput(p, prk, info, (length + 31) / 32)[..length])
    else
      Err(Backend)
  }

  /** One labeled call of section 4 of RFC 9180. */
  datatype LabeledCall =
    | Extract(suite: seq<byte>, name: seq<byte>, ikm: seq<byte>)
    | Expand(suite: seq<byte>, name: seq<byte>, info: seq<byte>, length: nat)

  /** The byte string handed to HKDF. Label and data follow each other without a delimiter. */
  function Encoded(call: LabeledCall): seq<byte> {
    match call
    case Extract(suite, name, ikm) => VERSION_LABEL + suite + name + ikm
    case Expand(suite, name, info, length) => Be16(length % U16_LIMIT) + VERSION_LABEL + suite + name + info
  }

  function LabeledExtract(p: Primitives, salt: seq<byte>, call: LabeledCall): Bytes32
    requires call.Extract?
  {
    HkdfExtract(p, salt, Encoded(call))
  }

  function LabeledExpand(p: Primitives, prk: Bytes32, call: LabeledCall): (r: Result<seq<byte>>)
    requires call.Expand?
    ensures r.Ok? <==> call.length <= 255 * 32
    ensures r.Ok? ==> |r.value| == call.length
  {
    HkdfExpand(p, prk, Encoded(call), call.length)
  }

  // The seven labeled calls of one seal or open.
  function EaePrk(dh: Bytes32): LabeledCall { Extract(KEM_SUITE_ID, Ascii("eae_prk"), dh) }
  function SharedSecret(kemContext: Bytes64): LabeledCall {
    Expand(KEM_SUITE_ID, Ascii("shared_secret"), kemContext, 32)
  }
  function PskIdHash(): LabeledCall { Extract(SUITE_ID, Ascii("psk_id_hash"), []) }
  function InfoHash(): LabeledCall { Extract(SUITE_ID, Ascii("info_hash"), HPKE_SHARE_INFO) }
  function Secret(): LabeledCall { Extract(SUITE_ID, Ascii("secret"), []) }
  function KeyCall(context: seq<byte>): LabeledCall { Expand(SUITE_ID, Ascii("key"), context, 32) }
  function BaseNonce(context: seq<byte>): LabeledCall { Expand(SUITE_ID, Ascii("base_nonce"), context, 24) }

  /** DHKEM `ExtractAndExpand`; 32 bytes never exceed the HKDF limit. */
  function ExtractAndExpand(p: Primitives, dh: Bytes32, kemContext: Bytes64): Bytes32 {
    LabeledExpand(p, LabeledExtract(p, [], EaePrk(dh)), SharedSecret(kemContext)).value
  }

  function KemContext(enc: Bytes32, recipient: Bytes32): Bytes64 {
    enc + recipient
  }

  function KemEncap(p: Primitives, recipient: Bytes32, ephemeral: Bytes32): (r: Result<(Bytes32, Bytes32)>) {
    var enc := p.publicKey(ephemeral);
    var dh := p.dh(ephemeral, recipient);
    if dh == Zeros(32) then Err(AuthenticationFailed)
    else Ok((ExtractAndExpand(p, dh, KemContext(enc, recipient)), enc))
  }

  function KemDecap(p: Primitives, recipientSecret: Bytes32, enc: Bytes32): (r: Result<Bytes32>) {
    var dh := p.dh(recipientSecret, enc);
    if dh == Zeros(32) then Err(AuthenticationFailed)
    else Ok(ExtractAndExpand(p, dh, KemContext(enc, p.publicKey(recipientSecret))))
  }

  function ScheduleContext(p: Primitives): (context: seq<byte>)
    ensures |context| == 65
  {
    [0x00] + LabeledExtract(p, [], PskIdHash()) + LabeledExtract(p, [], InfoHash())
  }

  /** Base-mode key schedule: a 32-byte key and a 24-byte nonce. */
  function KeySchedule(p: Primitives, sharedSecret: Bytes32): (Bytes32, Bytes24) {
    var prk := LabeledExtract(p, sharedSecret, Secret());
    (LabeledExpand(p, prk, KeyCall(ScheduleContext(p))).value,
     LabeledExpand(p, prk, BaseNonce(ScheduleContext(p))).value)
  }

  /** The labeled calls that one seal or open makes, in order. */
  function CallsMade(p: Primitives, dh: Bytes32, kemContext: Bytes64): seq<LabeledCall> {
    [EaePrk(dh), SharedSecret(kemContext), PskIdHash(), InfoHash(), Secret(),
     KeyCall(ScheduleContext(p)), BaseNonce(ScheduleContext(p))]
  }

  function CtxSealed(p: Primitives, sharedSecret: Bytes32, plaintext: seq<byte>): seq<byte> {
    var (key, nonce) := KeySchedule(p, sharedSecret);
    var ciphertext := CipherBlocks(p, key, nonce, 1, plaintext);
    ciphertext + CtxAead.ComputeCommitment(p, key, nonce, ciphertext)
  }

  /** Wire bytes of `plaintext` sealed to `recipient` with a given ephemeral secret. */
  function Sealed(p: Primitives, recipient: Bytes32, ephemeral: Bytes32, plaintext: seq<byte>): (r: Result<seq<byte>>) {
    match KemEncap(p, recipient, ephemeral)
    case Err(e) => Err(e)
    case Ok((sharedSecret, enc)) =>
      if LengthAccepted(|plaintext|) then Ok(enc + CtxSealed(p, sharedSecret, plaintext))
      else Err(AuthenticationFailed)
  }

  function Opened(p: Primitives, recipientSecret: Bytes32, wire: seq<byte>): (r: Result<seq<byte>>) {
    if |wire| < MIN_WIRE_LEN then Err(MalformedSharePackage) else
    var enc, tag := wire[..ENC_LEN], wire[|wire| - CTX_TAG_LEN..];
    var ciphertext := wire[ENC_LEN..|wire| - CTX_TAG_LEN];
    match KemDecap(p, recipientSecret, enc)
    case Err(e) => Err(e)
    case Ok(sharedSecret) =>
      var (key, nonce) := KeySchedule(p, sharedSecret);
      match CtxAead.Opened(p, key, nonce, ciphertext, tag)
      case Some(plaintext) => Ok(plaintext)
      case None => Err(AuthenticationFailed)
  }

  /** Seals a copy of `plaintext`; the ephemeral secret is the caller's random draw. */
  method Seal(p: Primitives, recipient: Bytes32, plaintext: seq<byte>, ephemeral: Bytes32)
    returns (r: Result<seq<byte>>)
    ensures r == Sealed(p, recipient, ephemeral, plaintext)
  {
    var encapsulated := KemEncap(p, recipient, ephemeral);
    if encapsulated.Err? {
      return Err(encapsulated.error);
    }
    var (sharedSecret, enc) := encapsulated.value;
    var (key, baseNonce) := KeySchedule(p, sharedSecret);
    var buffer := new byte[|plaintext|];
    Overwrite(buffer, plaintext);
    var tag := CtxAead.CtxSeal(p, key, baseNonce, buffer);
    if tag.Err? {
      return Err(tag.error);
    }
    var wire: seq<byte> := enc;
    wire := wire + (buffer[..] + tag.value);
    return Ok(wire);
  }

  method Open(p: Primitives, recipientSecret: Bytes32, wire: seq<byte>) returns (r: Result<seq<byte>>)
    ensures r == Opened(p, recipientSecret, wire)
  {
    if |wire| < MIN_WIRE_LEN {
      return Err(MalformedSharePackage);
    }
    var enc := wire[..ENC_LEN];
    var tag := wire[|wire| - CTX_TAG_LEN..];
    var ciphertext := wire[ENC_LEN..|wire| - CTX_TAG_LEN];
    var sharedSecret := KemDecap(p, recipientSecret, enc);
    if sharedSecret.Err? {
      return Err(sharedSecret.error);
    }
    var (key, baseNonce) := KeySchedule(p, sharedSecret.value);
    var buffer := new byte[|ciphertext|];
    Overwrite(buffer, ciphertext);
    var verdict := CtxAead.CtxOpen(p, key, baseNonce, buffer, tag);
    if verdict.Err? {
      return Err(verdict.error);
    }
    return Ok(buffer[..]);
  }

  /** The only law assumed of the Diffie-Hellman function: the two sides agree. */
  ghost predicate DhAgrees(p: Primitives, a: Bytes32, b: Bytes32) {
    p.dh(a, p.publicKey(b)) == p.dh(b, p.publicKey(a))
  }

  /** Both sides derive one shared secret. */
  lemma DecapUndoesEncap(p: Primitives, recipientSecret: Bytes32, ephemeral: Bytes32)
    requires DhAgrees(p, ephemeral, recipientSecret)
    ensures var encapsulated := KemEncap(p, p.publicKey(recipientSecret), ephemeral);
            encapsulated.Ok? ==>
              KemDecap(p, recipientSecret, encapsulated.value.1) == Ok(encapsulated.value.0)
  {
  }

  /** Opening undoes sealing for every key pair, ephemeral secret and plaintext, whenever sealing succeeds. */
  lemma OpenUndoesSeal(p: Primitives, recipientSecret: Bytes32, ephemeral: Bytes32, plaintext: seq<byte>)
    requires DhAgrees(p, ephemeral, recipientSecret)
    requires Sealed(p, p.publicKey(recipientSecret), ephemeral, plaintext).Ok?
    ensures Opened(p, recipientSecret, Sealed(p, p.publicKey(recipientSecret), ephemeral, plaintext).value) ==
            Ok(plaintext)
  {
    var recipient := p.publicKey(recipientSecret);
    DecapUndoesEncap(p, recipientSecret, ephemeral);
    var (sharedSecret, enc) := KemEncap(p, recipient, ephemeral).value;
    var (key, nonce) := KeySchedule(p, sharedSecret);
    var ciphertext := CipherBlocks(p, key, nonce, 1, plaintext);
    var tag := CtxAead.ComputeCommitment(p, key, nonce, ciphertext);
    var wire := Sealed(p, recipient, ephemeral, plaintext).value;
    assert wire == enc + (ciphertext + tag);
    assert wire[..ENC_LEN] == enc && wire[ENC_LEN..|wire| - CTX_TAG_LEN] == ciphertext &&
           wire[|wire| - CTX_TAG_LEN..] == tag;
    CipherBlocksInvolution(p, key, nonce, 1, plaintext);
  }

  /** Conversely every wire that opens carries, after its encapsulated key, exactly the sealing of
      what it opens to under the secret that key stands for. */
  lemma OpenedWireWasSealed(p: Primitives, recipientSecret: Bytes32, wire: seq<byte>)
    requires Opened(p, recipientSecret, wire).Ok?
    ensures |wire| >= MIN_WIRE_LEN && KemDecap(p, recipientSecret, wire[..ENC_LEN]).Ok?
    ensures wire[ENC_LEN..] == CtxSealed(p, KemDecap(p, recipientSecret, wire[..ENC_LEN]).value,
                                         Opened(p, recipientSecret, wire).value)
  {
    hide KeySchedule, KemDecap, CipherBlocks, CtxAead.ComputeCommitment;
    var (key, nonce) := KeySchedule(p, KemDecap(p, recipientSecret, wire[..ENC_LEN]).value);
    var ciphertext := wire[ENC_LEN..|wire| - CTX_TAG_LEN];
    CipherBlocksInvolution(p, key, nonce, 1, ciphertext);
    assert wire[ENC_LEN..] == ciphertext + wire[|wire| - CTX_TAG_LEN..];
  }

  lemma LabelBytes()
    ensures VERSION_LABEL[0] == 72 && KEM_SUITE_ID[0] == 75 && SUITE_ID[0] == 72
    ensures Ascii("psk_id_hash")[0] == 112 && Ascii("info_hash")[0] == 105 && Ascii("secret")[0] == 115
    ensures Ascii("key")[0] == 107 && Ascii("base_nonce")[0] == 98
  {
  }

  /** Which of the seven calls a byte string belongs to, read off at most two of its bytes. */
  function CallIndex(e: seq<byte>): int
    requires |e| > 19
  {
    if e[0] == 72 then
      if e[7] == 75 then 0 else if e[17] == 112 then 2 else if e[17] == 105 then 3 else 4
    else
      if e[9] == 75 then 1 else if e[19] == 107 then 5 else 6
  }

  lemma ExtractIndex(p: Primitives, dh: Bytes32, kemContext: Bytes64, i: nat)
    requires i in {0, 2, 3, 4}
    ensures var e := Encoded(CallsMade(p, dh, kemContext)[i]);
            |e| > 19 && CallIndex(e) == i
  {
    LabelBytes();
  }

  lemma ExpandIndex(p: Primitives, dh: Bytes32, kemContext: Bytes64, i: nat)
    requires i in {1, 5, 6}
    ensures var e := Encoded(CallsMade(p, dh, kemContext)[i]);
            |e| > 19 && CallIndex(e) == i
  {
    hide ScheduleContext;
    LabelBytes();
  }

  lemma SharedSecretInjective(kemContext: Bytes64, kemContext': Bytes64)
    requires Encoded(SharedSecret(kemContext)) == Encoded(SharedSecret(kemContext'))
    ensures kemContext == kemContext'
  {
    var head := Be16(32) + VERSION_LABEL + KEM_SUITE_ID + Ascii("shared_secret");
    ConcatInjective(head, kemContext, head, kemContext');
  }

  lemma EaePrkInjective(dh: Bytes32, dh': Bytes32)
    requires Encoded(EaePrk(dh)) == Encoded(EaePrk(dh'))
    ensures dh == dh'
  {
    var head := VERSION_LABEL + KEM_SUITE_ID + Ascii("eae_prk");
    ConcatInjective(head, dh, head, dh');
  }

  /** Domain separation: over all labeled calls of any two seals or opens, equal byte strings come
      only from calls equal in kind, suite, label, data and length. */
  lemma LabeledCallsSeparated(p: Primitives, dh: Bytes32, kemContext: Bytes64, dh': Bytes32, kemContext': Bytes64,
                              i: nat, j: nat)
    requires i < 7 && j < 7
    requires Encoded(CallsMade(p, dh, kemContext)[i]) == Encoded(CallsMade(p, dh', kemContext')[j])
    ensures CallsMade(p, dh, kemContext)[i] == CallsMade(p, dh', kemContext')[j]
  {
    if i in {0, 2, 3, 4} { ExtractIndex(p, dh, kemContext, i); } else { ExpandIndex(p, dh, kemContext, i); }
    if j in {0, 2, 3, 4} { ExtractIndex(p, dh', kemContext', j); } else { ExpandIndex(p, dh', kemContext', j); }
    assert i == j;
    if i == 0 {
      EaePrkInjective(dh, dh');
    } else if i == 1 {
      SharedSecretInjective(kemContext, kemContext');
    }
  }

  // ---------------------------------------------------------------- the derivation, written out

  // The messages that HMAC is called with, as section 4 of RFC 9180 and section 2.3 of RFC 5869 build them.
  function KemMessage(name: string): seq<byte> {
    Ascii("HPKE-v1") + (Ascii("KEM") + [0x00, 0x20]) + Ascii(name)
  }

  function SuiteMessage(name: string): seq<byte> {
    Ascii("HPKE-v1") + (Ascii("HPKE") + [0x00, 0x20, 0x00, 0x01, 0x00, 0x03]) + Ascii(name)
  }

  function SharedSecretMessage(enc: Bytes32, recipient: Bytes32): seq<byte> {
    [0, 32] + KemMessage("shared_secret") + (enc + recipient) + [1]
  }

  /** The hashes of the empty pre-shared-key id and of the info string, behind the mode byte of base mode. */
  function ContextBytes(p: Primitives): seq<byte> {
    [0] + p.hmac([], SuiteMessage("psk_id_hash")) + p.hmac([], SuiteMessage("info_hash") + Ascii("arx-runa-share"))
  }

  function KeyMessage(p: Primitives): seq<byte> {
    [0, 32] + SuiteMessage("key") + ContextBytes(p) + [1]
  }

  function NonceMessage(p: Primitives): seq<byte> {
    [0, 24] + SuiteMessage("base_nonce") + ContextBytes(p) + [1]
  }

  /** Expanding to at most one block is one HMAC call. */
  lemma OneBlockExpand(p: Primitives, prk: Bytes32, info: seq<byte>, length: nat)
    requires 0 < length <= 32
    ensures HkdfExpand(p, prk, info, length) == Ok(p.hmac(prk, info + [1])[..length])
  {
    assert HkdfBlock(p, prk, info, 0) == [];
    assert [] + info + [1] == info + [1];
    assert HkdfBlock(p, prk, info, 1) == p.hmac(prk, info + [1]);
    assert HkdfOutput(p, prk, info, 0) == [];
    assert HkdfOutput(p, prk, info, 1) == p.hmac(prk, info + [1]);
    assert (length + 31) / 32 == 1;
  }

  /** The shared secret in terms of HMAC. */
  lemma SharedSecretDerived(p: Primitives, dh: Bytes32, enc: Bytes32, recipient: Bytes32)
    ensures ExtractAndExpand(p, dh, KemContext(enc, recipient)) ==
            p.hmac(p.hmac([], KemMessage("eae_prk") + dh), SharedSecretMessage(enc, recipient))
  {
    var call := SharedSecret(KemContext(enc, recipient));
    var prk := p.hmac([], KemMessage("eae_prk") + dh);
    assert LabeledExtract(p, [], EaePrk(dh)) == prk;
    OneBlockExpand(p, prk, Encoded(call), 32);
    assert Be16(32) == [0, 32];
    assert Encoded(call) + [1] == SharedSecretMessage(enc, recipient);
    var t := p.hmac(prk, SharedSecretMessage(enc, recipient));
    assert t[..32] == t;
  }

  lemma ScheduleContextDerived(p: Primitives)
    ensures ScheduleContext(p) == ContextBytes(p)
  {
    assert Encoded(PskIdHash()) == SuiteMessage("psk_id_hash");
    assert Encoded(InfoHash()) == SuiteMessage("info_hash") + Ascii("arx-runa-share");
  }

  /** Key and nonce in terms of HMAC: the shared secret is the salt of the extraction. */
  lemma KeyScheduleDerived(p: Primitives, sharedSecret: Bytes32)
    ensures var prk := p.hmac(sharedSecret, SuiteMessage("secret"));
            && KeySchedule(p, sharedSecret).0 == p.hmac(prk, KeyMessage(p))
            && KeySchedule(p, sharedSecret).1 == p.hmac(prk, NonceMessage(p))[..24]
  {
    var prk := p.hmac(sharedSecret, SuiteMessage("secret"));
    ScheduleContextDerived(p);
    assert Encoded(Secret()) == SuiteMessage("secret");
    hide ScheduleContext, ContextBytes, HkdfExpand;
    var keyCall, nonceCall := KeyCall(ScheduleContext(p)), BaseNonce(ScheduleContext(p));
    OneBlockExpand(p, prk, Encoded(keyCall), 32);
    OneBlockExpand(p, prk, Encoded(nonceCall), 24);
    assert Be16(32) == [0, 32] && Be16(24) == [0, 24];
    assert Encoded(keyCall) + [1] == KeyMessage(p);
    assert Encoded(nonceCall) + [1] == NonceMessage(p);
    var t := p.hmac(prk, KeyMessage(p));
    assert t[..32] == t;
  }

  /** Two different inputs of HMAC with one output. */
  ghost predicate Collides(p: Primitives, k: seq<byte>, m: seq<byte>, k': seq<byte>, m': seq<byte>) {
    (k, m) != (k', m') && p.hmac(k, m) == p.hmac(k', m')
  }

  /** Different shared secrets give different keys, or exhibit a collision of HMAC in one of two places. They give
      different nonces as well, or a collision of the first extraction or of the truncated expansion. */
  lemma KeysDependOnSecret(p: Primitives, s: Bytes32, s': Bytes32)
    requires s != s'
    ensures var m := SuiteMessage("secret");
            var prk, prk' := p.hmac(s, m), p.hmac(s', m);
            && (KeySchedule(p, s).0 == KeySchedule(p, s').0 ==>
                Collides(p, s, m, s', m) || Collides(p, prk, KeyMessage(p), prk', KeyMessage(p)))
            && (KeySchedule(p, s).1 == KeySchedule(p, s').1 ==>
                Collides(p, s, m, s', m) ||
                (prk != prk' && p.hmac(prk, NonceMessage(p))[..24] == p.hmac(prk', NonceMessage(p))[..24]))
  {
    hide KeySchedule;
    KeyScheduleDerived(p, s);
    KeyScheduleDerived(p, s');
  }

  /** Different shared points, encapsulated keys or recipients give different shared secrets, or a collision. */
  lemma SecretsDependOnExchange(p: Primitives, dh: Bytes32, enc: Bytes32, recipient: Bytes32,
                                dh': Bytes32, enc': Bytes32, recipient': Bytes32)
    requires (dh, enc, recipient) != (dh', enc', recipient')
    requires ExtractAndExpand(p, dh, KemContext(enc, recipient)) ==
             ExtractAndExpand(p, dh', KemContext(enc', recipient'))
    ensures var m, m' := KemMessage("eae_prk") + dh, KemMessage("eae_prk") + dh';
            || Collides(p, [], m, [], m')
            || Collides(p, p.hmac([], m), SharedSecretMessage(enc, recipient),
                        p.hmac([], m'), SharedSecretMessage(enc', recipient'))
  {
    hide ExtractAndExpand, KemMessage;
    SharedSecretDerived(p, dh, enc, recipient);
    SharedSecretDerived(p, dh', enc', recipient');
    if dh != dh' {
      if KemMessage("eae_prk") + dh == KemMessage("eae_prk") + dh' {
        ConcatInjective(KemMessage("eae_prk"), dh, KemMessage("eae_prk"), dh');
      }
    } else if SharedSecretMessage(enc, recipient) == SharedSecretMessage(enc', recipient') {
      MessageInjective(enc, recipient, enc', recipient');
    }
  }

  lemma MessageInjective(enc: Bytes32, recipient: Bytes32, enc': Bytes32, recipient': Bytes32)
    requires SharedSecretMessage(enc, recipient) == SharedSecretMessage(enc', recipient')
    ensures enc == enc' && recipient == recipient'
  {
    hide KemMessage;
    var head := [0, 32] + KemMessage("shared_secret");
    assert SharedSecretMessage(enc, recipient) == head + (enc + recipient + [1]);
    assert SharedSecretMessage(enc', recipient') == head + (enc' + recipient' + [1]);
    ConcatInjective(head, enc + recipient + [1], head, enc' + recipient' + [1]);
    ConcatInjective(enc + recipient, [1], enc' + recipient', [1]);
    ConcatInjective(enc, recipient, enc', recipient');
  }

  /** The key and nonce that a sealing uses. */
  function SealingKey(p: Primitives, recipient: Bytes32, ephemeral: Bytes32): (Bytes32, Bytes24) {
    KeySchedule(p, ExtractAndExpand(p, p.dh(ephemeral, recipient), KemContext(p.publicKey(ephemeral), recipient)))
  }

  /** A sealed wire, byte by byte: the ephemeral public key; the plaintext combined with the key stream of the
      sealing's key and nonce from block 1 on; the hash of label, key, nonce and ciphertext. */
  lemma SealedLayout(p: Primitives, recipient: Bytes32, ephemeral: Bytes32, plaintext: seq<byte>)
    requires Sealed(p, recipient, ephemeral, plaintext).Ok?
    ensures var wire, n := Sealed(p, recipient, ephemeral, plaintext).value, |plaintext|;
            var (key, nonce) := SealingKey(p, recipient, ephemeral);
            && |wire| == 64 + n && wire[..32] == p.publicKey(ephemeral)
            && (forall i :: 0 <= i < n ==>
                  wire[32 + i] == Xor(plaintext[i], p.block(key, nonce, 1 + i / 64)[i % 64]))
            && wire[32 + n..] == p.hash(Ascii("arx-runa-ctx-v1") + key + nonce + wire[32..32 + n])
  {
    hide KeySchedule, ExtractAndExpand, CipherBlocks;
    var wire, n := Sealed(p, recipient, ephemeral, plaintext).value, |plaintext|;
    var (key, nonce) := SealingKey(p, recipient, ephemeral);
    var ciphertext := CipherBlocks(p, key, nonce, 1, plaintext);
    var tag := CtxAead.ComputeCommitment(p, key, nonce, ciphertext);
    assert wire == p.publicKey(ephemeral) + (ciphertext + tag);
    assert wire[32..32 + n] == ciphertext && wire[32 + n..] == tag;
    forall i | 0 <= i < n
      ensures ciphertext[i] == Xor(plaintext[i], p.block(key, nonce, 1 + i / 64)[i % 64])
    {
      CipherByte(p, key, nonce, 1, plaintext, i);
    }
  }

  /** Two sealings from different exchanges that use one key exhibit an HMAC collision in one of four places. */
  lemma SealingsUseOwnKeys(p: Primitives, recipient: Bytes32, ephemeral: Bytes32,
                           recipient': Bytes32, ephemeral': Bytes32)
    requires var dh, dh' := p.dh(ephemeral, recipient), p.dh(ephemeral', recipient');
             (dh, p.publicKey(ephemeral), recipient) != (dh', p.publicKey(ephemeral'), recipient')
    requires SealingKey(p, recipient, ephemeral).0 == SealingKey(p, recipient', ephemeral').0
    ensures var dh, dh' := p.dh(ephemeral, recipient), p.dh(ephemeral', recipient');
            var enc, enc' := p.publicKey(ephemeral), p.publicKey(ephemeral');
            var m, m' := KemMessage("eae_prk") + dh, KemMessage("eae_prk") + dh';
            var s := ExtractAndExpand(p, dh, KemContext(enc, recipient));
            var s' := ExtractAndExpand(p, dh', KemContext(enc', recipient'));
            var prk, prk' := p.hmac(s, SuiteMessage("secret")), p.hmac(s', SuiteMessage("secret"));
            || Collides(p, [], m, [], m')
            || Collides(p, p.hmac([], m), SharedSecretMessage(enc, recipient),
                        p.hmac([], m'), SharedSecretMessage(enc', recipient'))
            || Collides(p, s, SuiteMessage("secret"), s', SuiteMessage("secret"))
            || Collides(p, prk, KeyMessage(p), prk', KeyMessage(p))
  {
    hide KeySchedule, ExtractAndExpand, KemMessage, SuiteMessage, KeyMessage, SharedSecretMessage, Collides;
    var dh, dh' := p.dh(ephemeral, recipient), p.dh(ephemeral', recipient');
    var enc, enc' := p.publicKey(ephemeral), p.publicKey(ephemeral');
    var s := ExtractAndExpand(p, dh, KemContext(enc, recipient));
    var s' := ExtractAndExpand(p, dh', KemContext(enc', recipient'));
    if s == s' {
      SecretsDependOnExchange(p, dh, enc, recipient, dh', enc', recipient');
    } else {
      KeysDependOnSecret(p, s, s');
    }
  }

  /** Sealing fails exactly on an all-zero shared point or an excessive length. */
  lemma SealFailsIff(p: Primitives, recipient: Bytes32, ephemeral: Bytes32, plaintext: seq<byte>)
    ensures Sealed(p, recipient, ephemeral, plaintext).Err? <==>
              p.dh(ephemeral, recipient) == Zeros(32) || !LengthAccepted(|plaintext|)
    ensures Sealed(p, recipient, ephemeral, plaintext).Err? ==>
              Sealed(p, recipient, ephemeral, plaintext) == Err(AuthenticationFailed)
  {
  }

  /** Opening fails exactly on a short wire, an all-zero shared point, or a tag that is not the hash of label, key,
      nonce and ciphertext, and says which of the first and the others it was. */
  lemma OpenFailsIff(p: Primitives, recipientSecret: Bytes32, wire: seq<byte>)
    ensures |wire| < 64 ==> Opened(p, recipientSecret, wire) == Err(MalformedSharePackage)
    ensures |wire| >= 64 ==>
              var enc, n := wire[..32], |wire|;
              var dh := p.dh(recipientSecret, enc);
              var (key, nonce) :=
                KeySchedule(p, ExtractAndExpand(p, dh, KemContext(enc, p.publicKey(recipientSecret))));
              && (Opened(p, recipientSecret, wire).Err? ==>
                  Opened(p, recipientSecret, wire) == Err(AuthenticationFailed))
              && (Opened(p, recipientSecret, wire).Err? <==>
                  dh == Zeros(32) ||
                  wire[n - 32..] != p.hash(Ascii("arx-runa-ctx-v1") + key + nonce + wire[32..n - 32]))
  {
    hide KeySchedule, ExtractAndExpand, CipherBlocks;
  }
}
