/** Signed peer frames (crates/p2p): construction, verification, freshness. */
module PeerFrame {
  import opened Bytes
  import opened Crypto

  datatype Payload =
    | Init(ephemeral: PubKey)
    | ChatMessage(counter: i64, body: Data)
    | HeartBeat
    | SyncRequest(lastTimestamp: i64)
    | SyncResponse(messages: Data)
    | End

  datatype PeerMessage = PeerMessage(timestamp: i64, payload: Payload, sender: PubKey, signature: Data)

  /** A datagram or relay payload: a decodable peer message, or anything else. */
  datatype Frame = Junk(raw: Data) | Decoded(pm: PeerMessage)

  const MAX_FRAME_AGE_SECS: int := 120

  function PayloadBytes(p: Payload): Data {
    match p
    case Init(e) => Octets(e)
    case ChatMessage(c, body) => Octets(LE64(c)) + body
    case HeartBeat => Ascii("Heartbeat")
    case SyncRequest(t) => Octets(LE64(t))
    case SyncResponse(m) => m
    case End => Ascii("EndOfConversation")
  }

  function SignedBytes(sender: PubKey, timestamp: i64, p: Payload): Data {
    Octets(sender) + (Octets(LE64(timestamp)) + PayloadBytes(p))
  }

  /** `PeerMessage::new` at clock reading `timestamp`. */
  function NewMessage(p: Payload, me: Identity, timestamp: i64): PeerMessage {
    PeerMessage(timestamp, p, me.x, SignChallenge(me.verifying, SignedBytes(me.x, timestamp, p)))
  }

  predicate Verify(pm: PeerMessage, peer: Identity) {
    && pm.sender == peer.x
    && VerifyChallenge(peer.verifying, SignedBytes(pm.sender, pm.timestamp, pm.payload), pm.signature)
  }

  predicate Authentic(f: Frame, peer: Identity) {
    f.Decoded? && Verify(f.pm, peer)
  }

  predicate FrameIsFresh(frameTs: i64, now: i64) {
    -MAX_FRAME_AGE_SECS <= now - frameTs <= MAX_FRAME_AGE_SECS
  }

  /** A frame is fresh exactly up to 120 seconds away from the clock, on either side of it. */
  lemma {:induction false} FreshWindow(frameTs: i64, now: i64, away: nat)
    requires frameTs == now - away || frameTs == now + away
    ensures FrameIsFresh(frameTs, now) <==> away <= 120
  {
  }

  /** What a signature covers, byte by byte: sender (32), timestamp (8), payload. */
  lemma {:induction false} SignedLayout(sender: PubKey, timestamp: i64, p: Payload)
    ensures var d := SignedBytes(sender, timestamp, p);
            d[..32] == Octets(sender) && d[32..40] == Octets(LE64(timestamp)) && d[40..] == PayloadBytes(p)
    ensures p.ChatMessage? ==> PayloadBytes(p)[..8] == Octets(LE64(p.counter)) && PayloadBytes(p)[8..] == p.body
    ensures p.Init? ==> PayloadBytes(p) == Octets(p.ephemeral)
    ensures p.HeartBeat? ==> |PayloadBytes(p)| == 9 && PayloadBytes(p)[0] == Octet('H' as int)
    ensures p.End? ==> |PayloadBytes(p)| == 17 && PayloadBytes(p)[0] == Octet('E' as int)
  {
    var stamp := Octets(LE64(timestamp));
    var d := SignedBytes(sender, timestamp, p);
    assert d[32..] == stamp + PayloadBytes(p);
    assert d[32..40] == stamp;
    assert d[40..] == PayloadBytes(p);
  }

  predicate SameVariant(p: Payload, q: Payload) {
    match p
    case Init(_) => q.Init?
    case ChatMessage(_, _) => q.ChatMessage?
    case HeartBeat => q.HeartBeat?
    case SyncRequest(_) => q.SyncRequest?
    case SyncResponse(_) => q.SyncResponse?
    case End => q.End?
  }

  lemma {:induction false} SplitAt(a: Data, b: Data, a': Data, b': Data)
    requires |a| == |a'| && a + b == a' + b'
    ensures a == a' && b == b'
  {
    assert a == (a + b)[..|a|] && a' == (a' + b')[..|a|];
    assert b == (a + b)[|a|..] && b' == (a' + b')[|a|..];
  }

  /** The signed bytes carry no variant tag; within one variant they determine the whole frame. */
  lemma {:induction false} SignedBytesInjective(s: PubKey, t: i64, p: Payload, s': PubKey, t': i64, p': Payload)
    requires SameVariant(p, p')
    requires SignedBytes(s, t, p) == SignedBytes(s', t', p')
    ensures s == s' && t == t' && p == p'
  {
    SplitAt(Octets(s), Octets(LE64(t)) + PayloadBytes(p), Octets(s'), Octets(LE64(t')) + PayloadBytes(p'));
    SplitAt(Octets(LE64(t)), PayloadBytes(p), Octets(LE64(t')), PayloadBytes(p'));
    OctetsInjective(s, s');
    OctetsInjective(LE64(t), LE64(t'));
    LE64Injective(t, t');
    PayloadInjective(p, p');
  }

  /** A made message verifies against its maker's identity and against no other. */
  lemma {:induction false} VerifyExactly(p: Payload, me: Identity, timestamp: i64, peer: Identity)
    ensures Verify(NewMessage(p, me, timestamp), peer) <==> me == peer
  {
  }

  /** An honest signature fits only frames of its signer, its timestamp and its payload bytes. */
  lemma {:induction false} SignatureBindsBytes(p: Payload, me: Identity, timestamp: i64, pm: PeerMessage, peer: Identity)
    requires pm.signature == NewMessage(p, me, timestamp).signature
    requires Verify(pm, peer)
    ensures peer == me && pm.sender == me.x && pm.timestamp == timestamp
    ensures PayloadBytes(pm.payload) == PayloadBytes(p)
  {
    var bytes, bytes' := PayloadBytes(p), PayloadBytes(pm.payload);
    SplitAt(Octets(me.x), Octets(LE64(timestamp)) + bytes, Octets(pm.sender), Octets(LE64(pm.timestamp)) + bytes');
    SplitAt(Octets(LE64(timestamp)), bytes, Octets(LE64(pm.timestamp)), bytes');
    OctetsInjective(me.x, pm.sender);
    OctetsInjective(LE64(timestamp), LE64(pm.timestamp));
    LE64Injective(timestamp, pm.timestamp);
  }

  /** Moving an honest signature onto another frame of its variant only reproduces the honest frame. */
  lemma {:induction false} SignatureBindsFrame(p: Payload, me: Identity, timestamp: i64, pm: PeerMessage, peer: Identity)
    requires SameVariant(p, pm.payload)
    requires pm.signature == NewMessage(p, me, timestamp).signature
    requires Verify(pm, peer)
    ensures pm == NewMessage(p, me, timestamp) && peer == me
  {
    SignatureBindsBytes(p, me, timestamp, pm, peer);
    SignedBytesInjective(me.x, timestamp, p, pm.sender, pm.timestamp, pm.payload);
  }

  /** A chat body that some AEAD could open, as every body sent by a session is. */
  predicate IsCiphertext(body: Data) {
    |body| == 1 && body[0].Sealed?
  }

  /** The payloads a session or handshake puts on the network. */
  predicate Sendable(p: Payload) {
    p.Init? || p.HeartBeat? || p.End? || (p.ChatMessage? && IsCiphertext(p.body))
  }

  /** Across variants: payload bytes that read as a chat that could open, or as an Init, were sent as just that. */
  lemma {:induction false} ReframedPayload(sent: Payload, read: Payload)
    requires Sendable(sent) && PayloadBytes(sent) == PayloadBytes(read)
    requires read.Init? || (read.ChatMessage? && IsCiphertext(read.body))
    ensures sent == read
  {
    if SameVariant(sent, read) {
      PayloadInjective(sent, read);
    } else {
      VariantsDiffer(sent, read);
    }
  }

  lemma {:induction false} VariantsDiffer(sent: Payload, read: Payload)
    requires Sendable(sent) && !SameVariant(sent, read)
    requires read.Init? || (read.ChatMessage? && IsCiphertext(read.body))
    ensures PayloadBytes(sent) != PayloadBytes(read)
  {
    if read.ChatMessage? {
      assert PayloadBytes(read)[8] == read.body[0];
    } else if sent.ChatMessage? {
      assert PayloadBytes(sent)[8] == sent.body[0];
    }
  }

  lemma {:induction false} PayloadInjective(p: Payload, p': Payload)
    requires SameVariant(p, p') && PayloadBytes(p) == PayloadBytes(p')
    ensures p == p'
  {
    match p
    case Init(e) => OctetsInjective(e, p'.ephemeral);
    case ChatMessage(c, b) =>
      SplitAt(Octets(LE64(c)), b, Octets(LE64(p'.counter)), p'.body);
      OctetsInjective(LE64(c), LE64(p'.counter));
      LE64Injective(c, p'.counter);
    case SyncRequest(u) =>
      OctetsInjective(LE64(u), LE64(p'.lastTimestamp));
      LE64Injective(u, p'.lastTimestamp);
    case SyncResponse(_) =>
    case HeartBeat =>
    case End =>
  }
}
