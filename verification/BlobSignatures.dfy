/**
  What the signatures inside mailbox blobs bind (crates/serverclient): a payload
  that carries an honest signature and has any effect is the honest payload.
 */
module BlobSignatures {
  import opened Common
  import opened Bytes
  import opened Crypto
  import opened Mailbox

  /** The bytes under an offline signature: a tag (7), the ciphertext, the timestamp (8); under a purge's: a tag (5), the timestamp. */
  lemma {:induction false} BlobSignedLayout(ciphertext: Data, timestamp: i64)
    ensures var d, n := OfflineSigned(ciphertext, timestamp), |ciphertext|;
            |d| == 15 + n && d[..7] == Ascii("offline") && d[7..7 + n] == ciphertext && d[7 + n..] == Octets(LE64(timestamp))
    ensures var d := PurgeSigned(timestamp);
            |d| == 13 && d[..5] == Ascii("purge") && d[5..] == Octets(LE64(timestamp))
    ensures OfflineSigned(ciphertext, timestamp)[0] == Octet('o' as int) && PurgeSigned(timestamp)[0] == Octet('p' as int)
  {
    var d, stamp, n := OfflineSigned(ciphertext, timestamp), Octets(LE64(timestamp)), |ciphertext|;
    assert d[7..7 + n] == ciphertext;
    assert d[7 + n..] == stamp;
    assert PurgeSigned(timestamp)[5..] == stamp;
  }

  lemma {:induction false} OfflineSignedInjective(c: Data, t: i64, c': Data, t': i64)
    requires OfflineSigned(c, t) == OfflineSigned(c', t')
    ensures c == c' && t == t'
  {
    BlobSignedLayout(c, t);
    BlobSignedLayout(c', t');
    OctetsInjective(LE64(t), LE64(t'));
    LE64Injective(t, t');
  }

  lemma {:induction false} PurgeSignedInjective(t: i64, t': i64)
    requires PurgeSigned(t) == PurgeSigned(t')
    ensures t == t'
  {
    BlobSignedLayout([], t);
    BlobSignedLayout([], t');
    OctetsInjective(LE64(t), LE64(t'));
    LE64Injective(t, t');
  }

  /** What a generated message holds: its sender's hash, its date, and, for whoever shares the storage key, the text as the sender's own. */
  lemma {:induction false} OfflinePayloadHolds(recipient: Identity, theirs: Secret, me: Identity, mine: Secret, text: string, timestamp: i64, stored: Nonce)
    requires theirs.pub == recipient.x && mine.pub == me.x
    ensures var p := OfflinePayload(recipient, me, mine, text, timestamp, stored);
            && p.sender == IdentityHash(me) && p.timestamp == timestamp
            && DecodeStored(p.ciphertext, LoadStorageKey(me.x, theirs)) == Some(Message(You, text, timestamp))
  {
    UnorderedPairs(mine.pub, recipient.x, theirs.pub, me.x);
    StoredRoundTrip(Message(You, text, timestamp), LoadStorageKey(recipient.x, mine), stored, LoadStorageKey(me.x, theirs));
  }

  /** The signature of an offline message passes only with that message's signer, ciphertext and timestamp, and never on a purge. */
  lemma {:induction false} OfflineSignatureBinds(known: map<Hash, Identity>, p: BlobPayload, now: i64,
                                                 recipient: Identity, me: Identity, mine: Secret, text: string, timestamp: i64, stored: Nonce)
    requires p.signature == OfflinePayload(recipient, me, mine, text, timestamp, stored).signature && Genuine(known, p, now)
    ensures p == OfflinePayload(recipient, me, mine, text, timestamp, stored).(sender := p.sender)
    ensures known[p.sender].verifying == me.verifying
  {
    var sent := OfflinePayload(recipient, me, mine, text, timestamp, stored);
    BlobSignedLayout(sent.ciphertext, timestamp);
    BlobSignedLayout(sent.ciphertext, p.timestamp);
    if p.OfflineMessage? {
      OfflineSignedInjective(p.ciphertext, p.timestamp, sent.ciphertext, timestamp);
    }
  }

  /** The signature of a purge passes only with its signer and timestamp, and never on a message. */
  lemma {:induction false} PurgeSignatureBinds(known: map<Hash, Identity>, p: BlobPayload, now: i64, me: Identity, timestamp: i64)
    requires p.signature == PurgePayload(me, timestamp).signature && Genuine(known, p, now)
    ensures p == PurgePayload(me, timestamp).(sender := p.sender)
    ensures known[p.sender].verifying == me.verifying
  {
    if p.Purge? {
      PurgeSignedInjective(p.timestamp, timestamp);
    } else {
      BlobSignedLayout(p.ciphertext, p.timestamp);
      BlobSignedLayout(p.ciphertext, timestamp);
    }
  }

  /**
    Whoever builds a blob for its recipient around the signature of an offline
    message, what it does is at most what that message does: a payload re-dated,
    refilled or turned into a purge does nothing, and the sender it names is the
    signer.
   */
  lemma {:induction false} ReusedOfflineSignature(known: map<Hash, Identity>, blob: Data, p: BlobPayload, now: i64,
                                                  recipient: Identity, theirs: Secret, me: Identity, mine: Secret, text: string, timestamp: i64, stored: Nonce)
    requires theirs.pub == recipient.x && mine.pub == me.x
    requires PayloadOf(blob, theirs) == Some(p) && p.signature == OfflinePayload(recipient, me, mine, text, timestamp, stored).signature
    ensures var sent := OfflinePayload(recipient, me, mine, text, timestamp, stored);
            EffectOf(known, blob, theirs, now) ==
            if p == sent.(sender := p.sender) && p.sender in known && known[p.sender] == me && -MONTH <= now - timestamp <= MONTH
            then Some(Append(p.sender, Message(Peer, text, timestamp))) else None
  {
    var sent := OfflinePayload(recipient, me, mine, text, timestamp, stored);
    if Genuine(known, p, now) {
      OfflineSignatureBinds(known, p, now, recipient, me, mine, text, timestamp, stored);
      var key, key' := LoadStorageKey(recipient.x, mine), LoadStorageKey(known[p.sender].x, theirs);
      UnorderedPairs(mine.pub, recipient.x, theirs.pub, known[p.sender].x);
      StoredRoundTrip(Message(You, text, timestamp), key, stored, key');
    } else if p == sent.(sender := p.sender) {
      assert VerifyChallenge(me.verifying, OfflineSigned(p.ciphertext, p.timestamp), p.signature);
    }
  }

  /** Likewise for a purge: its signature only ever empties a conversation with its signer, dated as it was. */
  lemma {:induction false} ReusedPurgeSignature(known: map<Hash, Identity>, blob: Data, p: BlobPayload, now: i64, theirs: Secret, me: Identity, timestamp: i64)
    requires PayloadOf(blob, theirs) == Some(p) && p.signature == PurgePayload(me, timestamp).signature
    ensures EffectOf(known, blob, theirs, now) ==
            if p == PurgePayload(me, timestamp).(sender := p.sender) && p.sender in known && known[p.sender].verifying == me.verifying
               && -MONTH <= now - timestamp <= MONTH
            then Some(Clear(p.sender)) else None
  {
    if Genuine(known, p, now) {
      PurgeSignatureBinds(known, p, now, me, timestamp);
    }
  }

  /** What any blob does is dated, attributed and filed by its own payload. */
  lemma {:induction false} EffectIsThePayloads(known: map<Hash, Identity>, blob: Data, mine: Secret, now: i64)
    requires EffectOf(known, blob, mine, now).Some?
    ensures PayloadOf(blob, mine).Some?
    ensures var p, e := PayloadOf(blob, mine).value, EffectOf(known, blob, mine, now).value;
            && p.sender in known && e.sender == p.sender && -MONTH <= now - p.timestamp <= MONTH
            && (e.Append? <==> p.OfflineMessage?)
            && (e.Append? ==> e.msg.author == Peer && e.msg.timestamp == p.timestamp)
  {
  }

  /** Why a blob is refused: each reason exactly when everything tested before it was in order. */
  lemma {:induction false} WhyRefused(d: Disk, blob: Data, mine: Secret, now: i64, nonce: Nonce)
    ensures var r, p := ProcessBlob(d, blob, mine, now, nonce), PayloadOf(blob, mine);
            var timely := p.Some? && -MONTH <= now - p.value.timestamp <= MONTH;
            var known := p.Some? && p.value.sender in d.known;
            && (r == Err(DeserializationFailed) <==> DecryptBlob(blob, mine).Ok? && p.None?)
            && (r == Err(ReplayDetected) <==> p.Some? && !timely)
            && (r == Err(UnknownPeer) <==> timely && !known && p.value.Purge?)
            && (r == Err(PeerLoadFailed) <==> timely && !known && p.value.OfflineMessage?)
            && (r == Err(InvalidSignature) <==> timely && known && !Genuine(d.known, p.value, now))
            && (r == Err(InvalidMessageFormat) <==> SealedFor(d, p, mine, now).Some? && UnpackMessage(SealedFor(d, p, mine, now).value).None?)
            && (r == Err(ChatStorageFailed) ==> SealedFor(d, p, mine, now).Some? && UnpackMessage(SealedFor(d, p, mine, now).value).Some?)
            && (r == Err(DecryptionFailed) <==> DecryptBlob(blob, mine).Err? || (timely && known && Genuine(d.known, p.value, now) && p.value.OfflineMessage? && SealedFor(d, p, mine, now).None?))
  {
    var p := PayloadOf(blob, mine);
    if p.Some? && p.value.OfflineMessage? {
      RefusedOffline(d, p.value, mine, now, nonce);
    }
  }

  lemma {:induction false} RefusedOffline(d: Disk, p: BlobPayload, mine: Secret, now: i64, nonce: Nonce)
    requires p.OfflineMessage?
    ensures var r := HandleOffline(d, p, mine, now, nonce);
            && (r == Err(ReplayDetected) <==> !(-MONTH <= now - p.timestamp <= MONTH))
            && (r == Err(PeerLoadFailed) <==> -MONTH <= now - p.timestamp <= MONTH && p.sender !in d.known)
            && (r == Err(InvalidSignature) <==> -MONTH <= now - p.timestamp <= MONTH && p.sender in d.known && !Genuine(d.known, p, now))
            && (r == Err(InvalidMessageFormat) <==> SealedFor(d, Some(p), mine, now).Some? && UnpackMessage(SealedFor(d, Some(p), mine, now).value).None?)
            && (r == Err(ChatStorageFailed) ==> SealedFor(d, Some(p), mine, now).Some? && UnpackMessage(SealedFor(d, Some(p), mine, now).value).Some?)
            && (r == Err(DecryptionFailed) <==> p.sender in d.known && Genuine(d.known, p, now) && SealedFor(d, Some(p), mine, now).None?)
            && r != Err(DeserializationFailed) && r != Err(UnknownPeer)
  {
  }

  /** What the storage key shared with the sender opens a genuine message to. */
  function SealedFor(d: Disk, p: Option<BlobPayload>, mine: Secret, now: i64): Option<Data> {
    if p.Some? && p.value.OfflineMessage? && Genuine(d.known, p.value, now) then
      match DecryptMessageStored(p.value.ciphertext, LoadStorageKey(d.known[p.value.sender].x, mine))
      case Ok(plain) => Some(plain)
      case Err(_) => None
    else None
  }
}
