/** The signed `Init` exchange (crates/p2p `initial_handshake`, `relay_handshake`). */
module Handshake {
  import opened Common
  import opened Bytes
  import opened Crypto
  import opened PeerFrame
  import opened SessionLoops

  datatype HandshakeError = CommunicationError | Timeout

  datatype Path = Direct | Relay

  /** What the handshake's select loop wakes up for. */
  datatype Wake =
    | ResendTick(now: i64)
    | Received(frame: Frame, now: i64)
    | ReceiveFailed
    | Deadline

  /** The ephemeral of an authentic fresh `Init`; any other frame is ignored. */
  function AcceptInit(peer: Identity, f: Frame, now: i64): Option<PubKey> {
    if Authentic(f, peer) && FrameIsFresh(f.pm.timestamp, now) && f.pm.payload.Init?
    then Some(f.pm.payload.ephemeral)
    else None
  }

  function InitFrame(me: Identity, eph: Secret, now: i64): Frame {
    Decoded(NewMessage(Init(eph.pub), me, now))
  }

  ghost predicate IsOwnInit(me: Identity, eph: Secret, f: Frame) {
    exists now: i64 :: f == InitFrame(me, eph, now)
  }

  /** The wake-ups that end the loop: an accepted Init, the deadline, a closed relay channel. */
  predicate Decides(path: Path, peer: Identity, w: Wake) {
    match w
    case ResendTick(_) => false
    case Received(f, now) => AcceptInit(peer, f, now).Some?
    case ReceiveFailed => path.Relay?
    case Deadline => true
  }

  ghost predicate FirstDecisive(path: Path, peer: Identity, wakes: seq<Wake>, i: nat)
    requires i < |wakes|
  {
    Decides(path, peer, wakes[i]) && forall k :: 0 <= k < i ==> !Decides(path, peer, wakes[k])
  }

  /** An Init of `b` is accepted by whoever expects `b`, within two minutes of its timestamp, and yields its ephemeral. */
  lemma {:induction false} AcceptsExactly(peer: Identity, b: Identity, p: Payload, ts: i64, now: i64)
    ensures AcceptInit(peer, Decoded(NewMessage(p, b, ts)), now) ==
            if p.Init? && b == peer && -120 <= now - ts <= 120 then Some(p.ephemeral) else None
  {
    VerifyExactly(p, b, ts, peer);
  }

  /**
    What a handshake comes to. The first decisive wake-up alone settles it: an
    accepted Init gives the key agreed between our ephemeral and the one it carries,
    a closed relay channel an error, the deadline a timeout.
   */
  ghost predicate IsOutcome(path: Path, peer: Identity, eph: Secret, wakes: seq<Wake>, outcome: Result<Key, HandshakeError>) {
    && (forall i :: 0 <= i < |wakes| && FirstDecisive(path, peer, wakes, i) ==> Settles(peer, eph, wakes[i], outcome))
    && ((forall i :: 0 <= i < |wakes| ==> !Decides(path, peer, wakes[i])) ==> outcome == Err(Timeout))
  }

  predicate Settles(peer: Identity, eph: Secret, w: Wake, outcome: Result<Key, HandshakeError>) {
    match w
    case ResendTick(_) => false
    case Received(f, now) =>
      AcceptInit(peer, f, now).Some? && outcome == Ok(Expand(Dh({eph.pub, AcceptInit(peer, f, now).value}), "session"))
    case ReceiveFailed => outcome == Err(CommunicationError)
    case Deadline => outcome == Err(Timeout)
  }

  /** What a handshake sits through: its own resends, frames that are not a timely Init of the peer, and receive errors of the socket. */
  predicate IsNoise(path: Path, peer: Identity, w: Wake) {
    match w
    case ResendTick(_) => true
    case Received(f, now) => !Authentic(f, peer) || !(-120 <= now - f.pm.timestamp <= 120) || !f.pm.payload.Init?
    case ReceiveFailed => path.Direct?
    case Deadline => false
  }

  /** After any amount of noise, what comes first of a timely Init, a closed relay channel and the deadline settles the handshake. */
  lemma {:induction false} NoiseIsIgnored(path: Path, peer: Identity, eph: Secret, noise: seq<Wake>, last: Wake, more: seq<Wake>, outcome: Result<Key, HandshakeError>)
    requires forall k :: 0 <= k < |noise| ==> IsNoise(path, peer, noise[k])
    requires IsOutcome(path, peer, eph, noise + [last] + more, outcome) && !IsNoise(path, peer, last)
    ensures last.Received? ==> outcome == Ok(Expand(Dh({eph.pub, last.frame.pm.payload.ephemeral}), "session"))
    ensures last.ReceiveFailed? ==> outcome == Err(CommunicationError)
    ensures last.Deadline? ==> outcome == Err(Timeout)
  {
    var wakes, n := noise + [last] + more, |noise|;
    assert wakes[n] == last;
    forall k | 0 <= k < n ensures !Decides(path, peer, wakes[k]) {
      assert wakes[k] == noise[k];
    }
    assert FirstDecisive(path, peer, wakes, n);
  }

  /** The handshake's first decisive wake-up is at `i` and accepts an Init with ephemeral `e`. */
  ghost predicate AcceptsAt(path: Path, peer: Identity, wakes: seq<Wake>, i: nat, e: PubKey) {
    && i < |wakes| && FirstDecisive(path, peer, wakes, i)
    && wakes[i].Received? && AcceptInit(peer, wakes[i].frame, wakes[i].now) == Some(e)
  }

  /** Two handshakes that accepted an Init hold one key exactly when they are about the same unordered pair of ephemerals. */
  lemma {:induction false} HandshakesAgree(
    path: Path, peer: Identity, eph: Secret, wakes: seq<Wake>, i: nat, e: PubKey, outcome: Result<Key, HandshakeError>,
    path': Path, peer': Identity, eph': Secret, wakes': seq<Wake>, i': nat, e': PubKey, outcome': Result<Key, HandshakeError>)
    requires IsOutcome(path, peer, eph, wakes, outcome) && AcceptsAt(path, peer, wakes, i, e)
    requires IsOutcome(path', peer', eph', wakes', outcome') && AcceptsAt(path', peer', wakes', i', e')
    ensures outcome.Ok? && outcome'.Ok?
    ensures outcome == outcome' <==> (eph.pub == eph'.pub && e == e') || (eph.pub == e' && e == eph'.pub)
  {
    assert Settles(peer, eph, wakes[i], outcome) && Settles(peer', eph', wakes'[i'], outcome');
    UnorderedPairs(eph.pub, e, eph'.pub, e');
  }

  /**
    Two people whose handshakes first accept each other's Init hold one key, and
    splitting it by direction gives each of them the keys of the session, crossed.
   */
  lemma {:induction false} HandshakesMeet(
    a: Identity, b: Identity, ea: Secret, eb: Secret,
    path: Path, wakes: seq<Wake>, i: nat, outcome: Result<Key, HandshakeError>,
    path': Path, wakes': seq<Wake>, i': nat, outcome': Result<Key, HandshakeError>)
    requires a.x != b.x
    requires IsOutcome(path, b, ea, wakes, outcome) && AcceptsAt(path, b, wakes, i, eb.pub)
    requires IsOutcome(path', a, eb, wakes', outcome') && AcceptsAt(path', a, wakes', i', ea.pub)
    ensures outcome.Ok? && outcome' == outcome
    ensures var mine, theirs := SplitKey(a, b, outcome.value), SplitKey(b, a, outcome.value);
            && mine == SessionKeys(a, b, ea, eb.pub) && theirs == SessionKeys(b, a, eb, ea.pub)
            && mine.send == theirs.recv && mine.recv == theirs.send && mine.send != mine.recv
  {
    HandshakesAgree(path, b, ea, wakes, i, eb.pub, outcome, path', a, eb, wakes', i', ea.pub, outcome');
    assert Settles(b, ea, wakes[i], outcome);
    KeysCross(a, b, ea, eb);
  }

  /** One handshake. Our own Init has always been handed to the transport first, even when the peer's was already waiting. */
  method RunHandshake(path: Path, me: Identity, peer: Identity, eph: Secret, started: i64, wakes: seq<Wake>)
    returns (outcome: Result<Key, HandshakeError>, sent: seq<Frame>)
    ensures |sent| >= 1 && sent[0] == InitFrame(me, eph, started)
    ensures forall i :: 0 <= i < |sent| ==> IsOwnInit(me, eph, sent[i])
    ensures IsOutcome(path, peer, eph, wakes, outcome)
  {
    sent := [InitFrame(me, eph, started)];
    assert IsOwnInit(me, eph, sent[0]);
    for n := 0 to |wakes|
      invariant |sent| >= 1 && sent[0] == InitFrame(me, eph, started)
      invariant forall i :: 0 <= i < |sent| ==> IsOwnInit(me, eph, sent[i])
      invariant forall k :: 0 <= k < n ==> !Decides(path, peer, wakes[k])
    {
      match wakes[n]
      case ResendTick(now) =>
        sent := sent + [InitFrame(me, eph, now)];
        assert IsOwnInit(me, eph, sent[|sent| - 1]);
      case Received(f, now) =>
        if f.Decoded? && Verify(f.pm, peer) && FrameIsFresh(f.pm.timestamp, now) && f.pm.payload.Init? {
          return Ok(DeriveSessionKey(eph, f.pm.payload.ephemeral)), sent;
        }
      case ReceiveFailed =>
        if path.Relay? {
          return Err(CommunicationError), sent;
        }
      case Deadline =>
        return Err(Timeout), sent;
    }
    outcome := Err(Timeout);
  }
}
