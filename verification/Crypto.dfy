/**
  The cryptographic layer (crates/crypto) over idealised primitives.

  A byte string is a sequence of atoms. Ordinary bytes are `Octet`s; the output
  of a primitive whose inside is never inspected (an AEAD box, a signature, a
  MessagePack document, a UTF-8 text) is one atom, so it can be compared, copied
  and placed in a layout but not forged. Key agreement is the unordered pair of
  the two public keys involved (section 6.1 of RFC 7748), HKDF a constructor over
  key and label (section 2.3 of RFC 5869), an AEAD box opens only under the key
  and nonce that made it (section 2.8 of RFC 8439).
 */
module Crypto {
  import opened Common
  import opened Bytes

  type PubKey = k: seq<byte> | |k| == 32 witness seq(32, _ => 0)
  type Nonce = n: seq<byte> | |n| == 12 witness seq(12, _ => 0)

  /** An X25519 secret, named by the public key it belongs to. */
  datatype Secret = Secret(pub: PubKey)

  /** The two public keys of a participant (`PeerPublic`). */
  datatype Identity = Identity(x: PubKey, verifying: PubKey)

  /** `identity_hash`: SHA-256 over both public keys, free of collisions. */
  datatype Hash = Hash(x: PubKey, verifying: PubKey)

  datatype Key =
    | Dh(pair: set<PubKey>)
    | Expand(ikm: Key, info: string)

  datatype Author = You | Peer

  datatype Message = Message(author: Author, text: string, timestamp: i64)

  datatype BlobPayload =
    | OfflineMessage(sender: Hash, timestamp: i64, ciphertext: seq<Atom>, signature: seq<Atom>)
    | Purge(sender: Hash, signature: seq<Atom>, timestamp: i64)

  datatype Atom =
    | Octet(b: byte)
    | Utf8(text: string)
    | Sealed(key: Key, nonce: seq<Atom>, plain: seq<Atom>)
    | Signature(signer: PubKey, signed: seq<Atom>)
    | PackedMessage(message: Message)
    | PackedPayload(payload: BlobPayload)

  type Data = seq<Atom>

  datatype CryptoError = CryptographicError | CorruptedFile

  function IdentityHash(id: Identity): Hash {
    Hash(id.x, id.verifying)
  }

  function Octets(s: seq<byte>): (d: Data)
    ensures |d| == |s|
    ensures forall i :: 0 <= i < |s| ==> d[i] == Octet(s[i])
  {
    seq(|s|, i requires 0 <= i < |s| => Octet(s[i]))
  }

  lemma {:induction false} OctetsInjective(a: seq<byte>, b: seq<byte>)
    ensures Octets(a) == Octets(b) <==> a == b
  {
    if Octets(a) == Octets(b) {
      assert |a| == |b|;
      forall i | 0 <= i < |a| ensures a[i] == b[i] {
        assert Octets(a)[i] == Octets(b)[i];
      }
    }
  }

  /** The ASCII bytes of a domain-separation literal. */
  function Ascii(s: string): (d: Data)
    requires forall i :: 0 <= i < |s| ==> s[i] as int < 128
    ensures |d| == |s|
  {
    seq(|s|, i requires 0 <= i < |s| => Octet(s[i] as int))
  }

  // ---- Primitives -----------------------------------------------------------

  function DiffieHellman(mine: Secret, theirs: PubKey): Key {
    Dh({mine.pub, theirs})
  }

  lemma {:induction false} UnorderedPairs(a: PubKey, b: PubKey, c: PubKey, d: PubKey)
    ensures Dh({a, b}) == Dh({c, d}) <==> (a == c && b == d) || (a == d && b == c)
  {
    if {a, b} == {c, d} {
      assert a in {c, d} && b in {c, d} && c in {a, b} && d in {a, b};
    }
  }

  function AeadSeal(key: Key, nonce: Data, plain: Data): Data {
    [Sealed(key, nonce, plain)]
  }

  function AeadOpen(key: Key, nonce: Data, cipher: Data): Option<Data> {
    if |cipher| == 1 && cipher[0].Sealed? && cipher[0].key == key && cipher[0].nonce == nonce
    then Some(cipher[0].plain)
    else None
  }

  function SignChallenge(signer: PubKey, data: Data): Data {
    [Signature(signer, data)]
  }

  predicate VerifyChallenge(signer: PubKey, data: Data, signature: Data) {
    signature == [Signature(signer, data)]
  }

  function UnpackMessage(d: Data): Option<Message> {
    if |d| == 1 && d[0].PackedMessage? then Some(d[0].message) else None
  }

  function UnpackPayload(d: Data): Option<BlobPayload> {
    if |d| == 1 && d[0].PackedPayload? then Some(d[0].payload) else None
  }

  /** `PublicKey::from` on 32 received bytes; other atoms are no one's key. */
  function PublicFrom(d: Data): (r: Option<PubKey>)
    requires |d| == 32
  {
    if forall i :: 0 <= i < 32 ==> d[i].Octet?
    then Some(seq(32, i requires 0 <= i < 32 => d[i].b))
    else None
  }

  lemma {:induction false} PublicFromOctets(k: PubKey)
    ensures PublicFrom(Octets(k)) == Some(k)
  {
    assert PublicFrom(Octets(k)).value == k;
  }

  // ---- Session keys ---------------------------------------------------------

  function DeriveSessionKey(eph: Secret, peerEph: PubKey): Key {
    Expand(DiffieHellman(eph, peerEph), "session")
  }

  function DeriveDirectionalKey(sessionKey: Key, info: string): Key {
    Expand(sessionKey, info)
  }

  // ---- Chat messages --------------------------------------------------------

  /** Byte `i` of the message nonce: the counter is folded into bytes 4 to 11. */
  function NonceForMessage(base: Nonce, counter: nat): (n: Nonce)
    requires counter <= U64_MAX
  {
    var c := LittleEndian(counter, 8);
    seq(12, i requires 0 <= i < 12 => if i < 4 then base[i] else Xor(base[i], c[i - 4]))
  }

  /** The source's in-place loop over a copy of the base nonce. */
  method ComputeNonce(base: Nonce, counter: nat) returns (nonce: Nonce)
    requires counter <= U64_MAX
    ensures nonce == NonceForMessage(base, counter)
  {
    var n := new byte[12](i requires 0 <= i < 12 => base[i]);
    var counterBytes := LittleEndian(counter, 8);
    for i := 0 to 8
      invariant forall k :: 0 <= k < 4 || 4 + i <= k < 12 ==> n[k] == base[k]
      invariant forall k :: 4 <= k < 4 + i ==> n[k] == Xor(base[k], counterBytes[k - 4])
    {
      n[4 + i] := Xor(n[4 + i], counterBytes[i]);
    }
    nonce := n[..];
  }

  /** Folding the counter in a second time gives the base back, so nothing is lost. */
  lemma {:induction false} NonceUndo(base: Nonce, counter: nat)
    requires counter <= U64_MAX
    ensures NonceForMessage(NonceForMessage(base, counter), counter) == base
  {
    var c := LittleEndian(counter, 8);
    var n := NonceForMessage(base, counter);
    forall i | 4 <= i < 12 ensures NonceForMessage(n, counter)[i] == base[i] {
      XorCancels(base[i], c[i - 4]);
    }
  }

  const ZeroNonce: Nonce := seq(12, _ => 0)

  /**
    Where the counter goes: the first four bytes are the base's; the other eight
    are, over a zero base, the counter with its least byte first, and over any base
    those bytes exclusive-or the base's.
   */
  lemma {:induction false} NonceLayout(base: Nonce, counter: nat, k: nat)
    requires counter <= U64_MAX && k < 8
    ensures NonceForMessage(base, counter)[..4] == base[..4]
    ensures Weigh(NonceForMessage(ZeroNonce, counter)[4..]) == counter
    ensures NonceForMessage(base, counter)[4 + k] == Xor(base[4 + k], NonceForMessage(ZeroNonce, counter)[4 + k])
  {
    var c := LittleEndian(counter, 8);
    var plain := NonceForMessage(ZeroNonce, counter);
    forall j | 0 <= j < 8 ensures plain[4 + j] == c[j] {
      XorIsBitwise(0, c[j], 0);
    }
    assert plain[4..] == c;
    LittleEndianWeighs(counter);
  }

  lemma {:induction false} XorInjective(a: byte, b: byte, c: byte)
    requires Xor(a, b) == Xor(a, c)
    ensures b == c
  {
    XorCommutes(a, b);
    XorCommutes(a, c);
    XorCancels(b, a);
    XorCancels(c, a);
  }

  lemma {:induction false} XorCommutes(a: byte, b: byte)
    ensures Xor(a, b) == Xor(b, a)
  {
    XorBitsCommute(a, b, 8);
  }

  lemma {:induction false} XorBitsCommute(a: nat, b: nat, bits: nat)
    ensures XorBits(a, b, bits) == XorBits(b, a, bits)
    decreases bits
  {
    if bits > 0 {
      XorBitsCommute(a / 2, b / 2, bits - 1);
    }
  }

  /** Under any one base nonce, two u64 counters give one nonce only if equal. */
  lemma {:induction false} NonceInjective(base: Nonce, c1: nat, c2: nat)
    requires c1 <= U64_MAX && c2 <= U64_MAX
    ensures NonceForMessage(base, c1) == NonceForMessage(base, c2) <==> c1 == c2
  {
    if NonceForMessage(base, c1) == NonceForMessage(base, c2) {
      var a, b := LittleEndian(c1, 8), LittleEndian(c2, 8);
      forall k | 0 <= k < 8 ensures a[k] == b[k] {
        assert NonceForMessage(base, c1)[k + 4] == NonceForMessage(base, c2)[k + 4];
        XorInjective(base[k + 4], a[k], b[k]);
      }
      assert a == b;
      Pow256Eight();
      LittleEndianInjective(c1, c2, 8);
    }
  }

  /**
    HKDF with a 12-byte output. Nothing is assumed about it beyond its length:
    every statement below holds for every such function.
   */
  type NonceKdf = Key -> Nonce

  function MessageKey(directional: Key): Key {
    Expand(directional, "message")
  }

  function MessageNonce(kdf: NonceKdf, directional: Key, counter: nat): Nonce
    requires counter <= U64_MAX
  {
    NonceForMessage(kdf(Expand(directional, "nonce")), counter)
  }

  function EncryptMessageForChat(kdf: NonceKdf, text: string, key: Key, counter: nat): Data
    requires counter <= U64_MAX
  {
    AeadSeal(MessageKey(key), Octets(MessageNonce(kdf, key, counter)), [Utf8(text)])
  }

  function DecryptMessageFromChat(kdf: NonceKdf, cipher: Data, key: Key, counter: nat): Result<string, CryptoError>
    requires counter <= U64_MAX
  {
    match AeadOpen(MessageKey(key), Octets(MessageNonce(kdf, key, counter)), cipher)
    case None => Err(CryptographicError)
    case Some(plain) => if |plain| == 1 && plain[0].Utf8? then Ok(plain[0].text) else Err(CorruptedFile)
  }

  /** A chat ciphertext opens to its own text, under its own key and counter and no other. */
  lemma {:induction false} ChatOpensExactly(kdf: NonceKdf, text: string, key: Key, counter: nat, key': Key, counter': nat)
    requires counter <= U64_MAX && counter' <= U64_MAX
    ensures var clear := DecryptMessageFromChat(kdf, EncryptMessageForChat(kdf, text, key, counter), key', counter');
            clear == if key == key' && counter == counter' then Ok(text) else Err(CryptographicError)
  {
    if key == key' {
      NonceInjective(kdf(Expand(key, "nonce")), counter, counter');
      OctetsInjective(MessageNonce(kdf, key, counter), MessageNonce(kdf, key, counter'));
    }
  }

  // ---- Stored messages ------------------------------------------------------

  function LoadStorageKey(peer: PubKey, mine: Secret): Key {
    Expand(DiffieHellman(mine, peer), "storage")
  }

  function EncryptMessageStored(msg: Message, key: Key, nonce: Nonce): Data {
    Octets(nonce) + AeadSeal(key, Octets(nonce), [PackedMessage(msg)])
  }

  function DecryptMessageStored(data: Data, key: Key): Result<Data, CryptoError> {
    if |data| < 12 then Err(CorruptedFile)
    else match AeadOpen(key, data[..12], data[12..])
         case Some(plain) => Ok(plain)
         case None => Err(CryptographicError)
  }

  /** What a history load can read out of one stored value. */
  function DecodeStored(data: Data, key: Key): Option<Message> {
    match DecryptMessageStored(data, key)
    case Err(_) => None
    case Ok(plain) => UnpackMessage(plain)
  }

  lemma {:induction false} StoredRoundTrip(msg: Message, key: Key, nonce: Nonce, key': Key)
    ensures DecodeStored(EncryptMessageStored(msg, key, nonce), key') == if key == key' then Some(msg) else None
  {
    var d := EncryptMessageStored(msg, key, nonce);
    assert d[..12] == Octets(nonce);
    assert d[12..] == AeadSeal(key, Octets(nonce), [PackedMessage(msg)]);
  }

  /** Layout of a stored value: its nonce (12), then one box. A value too short for a nonce is corrupted, and nothing else is. */
  lemma {:induction false} StoredLayout(msg: Message, key: Key, nonce: Nonce, data: Data)
    ensures var d := EncryptMessageStored(msg, key, nonce);
            d[..12] == Octets(nonce) && AeadOpen(key, Octets(nonce), d[12..]) == Some([PackedMessage(msg)])
    ensures DecryptMessageStored(data, key) == Err(CorruptedFile) <==> |data| < 12
  {
    var d := EncryptMessageStored(msg, key, nonce);
    assert d[12..] == AeadSeal(key, Octets(nonce), [PackedMessage(msg)]);
  }

  // ---- Blob envelopes -------------------------------------------------------

  function BlobKey(mine: Secret, theirs: PubKey): Key {
    Expand(DiffieHellman(mine, theirs), "blob")
  }

  /** Envelope layout: ephemeral public key (32), nonce (12), ciphertext. */
  function EncryptBlob(recipient: PubKey, plain: Data, eph: Secret, nonce: Nonce): Data {
    Octets(eph.pub) + Octets(nonce) + AeadSeal(BlobKey(eph, recipient), Octets(nonce), plain)
  }

  function DecryptBlob(blob: Data, mine: Secret): Result<Data, CryptoError> {
    if |blob| < 44 then Err(CorruptedFile)
    else match PublicFrom(blob[..32])
         case None => Err(CryptographicError)
         case Some(eph) =>
           match AeadOpen(BlobKey(mine, eph), blob[32..44], blob[44..])
           case Some(plain) => Ok(plain)
           case None => Err(CryptographicError)
  }

  /** An envelope opens with the recipient's secret and with no other. */
  lemma {:induction false} BlobRoundTrip(recipient: PubKey, plain: Data, eph: Secret, nonce: Nonce, mine: Secret)
    ensures var clear := DecryptBlob(EncryptBlob(recipient, plain, eph, nonce), mine);
            clear == if mine.pub == recipient then Ok(plain) else Err(CryptographicError)
  {
    var b := EncryptBlob(recipient, plain, eph, nonce);
    assert b[..32] == Octets(eph.pub);
    assert b[32..44] == Octets(nonce);
    assert b[44..] == AeadSeal(BlobKey(eph, recipient), Octets(nonce), plain);
    PublicFromOctets(eph.pub);
    UnorderedPairs(mine.pub, eph.pub, eph.pub, recipient);
  }

  /** Layout of an envelope: ephemeral key (32), nonce (12), one box. A blob too short for those is corrupted, and nothing else is. */
  lemma {:induction false} BlobLayout(recipient: PubKey, plain: Data, eph: Secret, nonce: Nonce, blob: Data, mine: Secret)
    ensures var b := EncryptBlob(recipient, plain, eph, nonce);
            && |b| > 44 && b[..32] == Octets(eph.pub) && b[32..44] == Octets(nonce)
            && AeadOpen(BlobKey(eph, recipient), Octets(nonce), b[44..]) == Some(plain)
    ensures DecryptBlob(blob, mine) == Err(CorruptedFile) <==> |blob| < 44
  {
    var b := EncryptBlob(recipient, plain, eph, nonce);
    assert b[44..] == AeadSeal(BlobKey(eph, recipient), Octets(nonce), plain);
  }

  // ---- Presence tokens ------------------------------------------------------

  /** An HMAC output: equal exactly for equal key and data. */
  datatype Token = Hmac(key: Key, data: seq<byte>)

  /** Rust's integer division: truncation toward zero. */
  function TruncDiv(a: int, b: int): int
    requires b > 0
  {
    if a >= 0 then a / b else -((-a) / b)
  }

  function BucketStart(timestamp: i64): i64 {
    TruncDiv(timestamp, 15) * 15
  }

  function PresenceKey(mine: Secret, peer: PubKey): Key {
    Expand(DiffieHellman(mine, peer), "presence")
  }

  function PresenceToken(mine: Secret, peer: PubKey, timestamp: i64): Token {
    Hmac(PresenceKey(mine, peer), LE64(BucketStart(timestamp)))
  }

  /** Keys drawn for different purposes differ, whoever draws them; within a purpose only the pair of people counts. */
  lemma {:induction false} PurposesDiffer(a: Secret, b: PubKey, c: Secret, d: PubKey)
    ensures DeriveSessionKey(a, b) != LoadStorageKey(d, c) && DeriveSessionKey(a, b) != BlobKey(c, d)
    ensures DeriveSessionKey(a, b) != PresenceKey(c, d) && LoadStorageKey(b, a) != BlobKey(c, d)
    ensures LoadStorageKey(b, a) != PresenceKey(c, d) && BlobKey(a, b) != PresenceKey(c, d)
    ensures var same := (a.pub == c.pub && b == d) || (a.pub == d && b == c.pub);
            && (DeriveSessionKey(a, b) == DeriveSessionKey(c, d) <==> same)
            && (LoadStorageKey(b, a) == LoadStorageKey(d, c) <==> same)
            && (BlobKey(a, b) == BlobKey(c, d) <==> same)
  {
    UnorderedPairs(a.pub, b, c.pub, d);
  }

  /**
    Tokens computed by any two parties for any two peers at any two times agree
    exactly when they are about the same pair of people and the same bucket.
   */
  lemma {:induction false} PresenceTokensAgree(mine: Secret, peer: PubKey, t: i64, mine': Secret, peer': PubKey, t': i64)
    ensures PresenceToken(mine, peer, t) == PresenceToken(mine', peer', t') <==>
            ((mine.pub == mine'.pub && peer == peer') || (mine.pub == peer' && peer == mine'.pub)) &&
            TruncDiv(t, 15) == TruncDiv(t', 15)
  {
    UnorderedPairs(mine.pub, peer, mine'.pub, peer');
    LE64Injective(BucketStart(t), BucketStart(t'));
  }

  /** At non-negative times the two ends of a friendship agree exactly within a 15-second bucket. */
  lemma {:induction false} PresenceBuckets(a: Secret, b: Secret, t: i64, t': i64, bucket: nat)
    requires 15 * bucket <= t < 15 * bucket + 15 && t' >= 0
    ensures PresenceToken(a, b.pub, t) == PresenceToken(b, a.pub, t') <==> 15 * bucket <= t' < 15 * bucket + 15
    ensures Weigh(PresenceToken(a, b.pub, t).data) == 15 * bucket
  {
    PresenceTokensAgree(a, b.pub, t, b, a.pub, t');
    assert TruncDiv(t, 15) == bucket;
    StartWeighs(15 * bucket);
  }

  lemma {:induction false} StartWeighs(start: i64)
    requires start >= 0
    ensures Weigh(LE64(start)) == start
  {
    LE64Weighs(start);
  }
}
