/**
  Many connect attempts by many participants over one unreliable network.

  An attempt draws a fresh ephemeral, runs the direct and then the relay
  handshake with it, and starts at most one session. The network keeps every
  frame ever sent and may hand any of them to anyone, any number of times, in any
  order, or never; it may also hand over any frame that does not verify, any frame
  built around a signature taken from a sent frame, whatever variant it then claims
  to be, and a sent chat read as an `Init`, its ciphertext taken for an ephemeral.
 */
module Protocol {
  import opened Common
  import opened Bytes
  import opened Crypto
  import opened PeerFrame
  import opened HighWater
  import opened SessionLoops
  import opened Handshake

  datatype Phase = Punching | DirectHandshake | RelayHandshake | Up(peerEph: PubKey) | Failed

  datatype Attempt = Attempt(
    me: Identity, peer: Identity, eph: PubKey, phase: Phase,
    counter: int, sent: seq<string>, sending: bool,
    inbox: Receiving)

  /** One use of an AEAD key and nonce, with the session and counter it was for. */
  datatype Use = Use(key: Key, nonce: Nonce, session: nat, counter: int)

  datatype Sys = Sys(attempts: seq<Attempt>, net: set<Frame>, uses: seq<Use>)

  datatype Action =
    | Begin(me: Identity, peer: Identity, eph: PubKey)
    | Punched(i: nat, ok: bool)
    | SendInit(i: nat, now: i64)
    | ReceiveInit(i: nat, f: Frame, now: i64)
    | HandshakeTimeout(i: nat)
    | SendText(i: nat, text: string, now: i64, ok: bool)
    | SendHeartbeat(i: nat, now: i64, ok: bool)
    | CloseOutbound(i: nat, now: i64, ok: bool)
    | ReceiveFrame(i: nat, f: Frame, now: i64)
    | TransportLost(i: nat)

  const Empty: Sys := Sys([], {}, [])

  function KeysOf(a: Attempt): Keys
    requires a.phase.Up?
  {
    SessionKeys(a.me, a.peer, Secret(a.eph), a.phase.peerEph)
  }

  ghost predicate BuiltAround(g: Frame, f: Frame) {
    g.Decoded? && f.Decoded? && g.pm.signature == f.pm.signature
  }

  /** No attempt has drawn this ephemeral. */
  ghost predicate Nobodys(s: Sys, e: PubKey) {
    forall a :: a in s.attempts ==> a.eph != e
  }

  /**
    A sent chat read as an `Init`. The signed bytes carry no tag, and a counter with
    a short enough ciphertext is as long as an ephemeral; but it is nobody's.
   */
  ghost predicate ChatReadAsInit(s: Sys, f: Frame) {
    && f.Decoded? && f.pm.payload.Init? && Nobodys(s, f.pm.payload.ephemeral)
    && exists g :: g in s.net && g.Decoded? && g.pm.payload.ChatMessage? && g.pm.sender == f.pm.sender && g.pm.timestamp == f.pm.timestamp
  }

  /** What the network may hand to a participant who expects to hear from `peer`. */
  ghost predicate MayArrive(s: Sys, f: Frame, peer: Identity) {
    f in s.net || !Authentic(f, peer) || ChatReadAsInit(s, f) || exists g :: g in s.net && BuiltAround(g, f)
  }

  /** An ephemeral that no attempt has drawn or been told. */
  ghost predicate Unheard(s: Sys, e: PubKey) {
    forall a :: a in s.attempts ==> a.eph != e && (a.phase.Up? ==> a.phase.peerEph != e)
  }

  predicate Handshaking(a: Attempt) {
    a.phase.DirectHandshake? || a.phase.RelayHandshake?
  }

  function Put(s: Sys, i: nat, a: Attempt): Sys
    requires i < |s.attempts|
  {
    s.(attempts := s.attempts[i := a])
  }

  function Transmit(s: Sys, f: Frame, ok: bool): Sys {
    if ok then s.(net := s.net + {f}) else s
  }

  function DoSendText(kdf: NonceKdf, s: Sys, i: nat, text: string, now: i64, ok: bool): Sys
    requires i < |s.attempts| && s.attempts[i].phase.Up? && 0 <= s.attempts[i].counter < I64_MAX
  {
    var a := s.attempts[i];
    var c := a.counter + 1;
    var keys := KeysOf(a);
    var used := Use(MessageKey(keys.send), MessageNonce(kdf, keys.send, AsU64(c)), i, c);
    var s1 := Put(s, i, a.(counter := c, sent := a.sent + [text], sending := ok));
    Transmit(s1.(uses := s.uses + [used]), ChatFrame(kdf, keys, c, text, now), ok)
  }

  /** One step; an action that is not possible in this state changes nothing. */
  ghost function Next(kdf: NonceKdf, s: Sys, act: Action): Sys {
    if act.Begin? then
      if act.me.x != act.peer.x && Unheard(s, act.eph)
      then s.(attempts := s.attempts + [Attempt(act.me, act.peer, act.eph, Punching, 0, [], true, Start)])
      else s
    else if act.i >= |s.attempts| then s
    else
      var i, a := act.i, s.attempts[act.i];
      match act
      case Punched(_, ok) =>
        if a.phase.Punching? then Put(s, i, a.(phase := if ok then DirectHandshake else RelayHandshake)) else s
      case SendInit(_, now) =>
        if Handshaking(a) then Transmit(s, InitFrame(a.me, Secret(a.eph), now), true) else s
      case ReceiveInit(_, f, now) =>
        if Handshaking(a) && MayArrive(s, f, a.peer) && AcceptInit(a.peer, f, now).Some?
        then Put(s, i, a.(phase := Up(AcceptInit(a.peer, f, now).value))) else s
      case HandshakeTimeout(_) =>
        if a.phase.DirectHandshake? then Put(s, i, a.(phase := RelayHandshake))
        else if a.phase.RelayHandshake? then Put(s, i, a.(phase := Failed)) else s
      case SendText(_, text, now, ok) =>
        if !a.phase.Up? || !a.sending then s
        else if 0 <= a.counter < I64_MAX then DoSendText(kdf, s, i, text, now, ok)
        else Put(s, i, a.(sending := false))
      case SendHeartbeat(_, now, ok) =>
        if a.phase.Up? && a.sending
        then Transmit(Put(s, i, a.(sending := ok)), Decoded(NewMessage(HeartBeat, a.me, now)), ok) else s
      case CloseOutbound(_, now, ok) =>
        if a.phase.Up? && a.sending
        then Transmit(Put(s, i, a.(sending := false)), Decoded(NewMessage(End, a.me, now)), ok) else s
      case ReceiveFrame(_, f, now) =>
        if a.phase.Up? && MayArrive(s, f, a.peer)
        then Put(s, i, a.(inbox := Take(a.inbox, See(kdf, KeysOf(a), Inbound(f, now))))) else s
      case TransportLost(_) =>
        if a.phase.Up? then Put(s, i, a.(inbox := a.inbox.(running := false))) else s
  }

  ghost function Run(kdf: NonceKdf, acts: seq<Action>): Sys {
    if acts == [] then Empty else Next(kdf, Run(kdf, acts[..|acts| - 1]), acts[|acts| - 1])
  }

  /** The frames a longer list has over a shorter one. */
  function Added(frames: seq<Frame>, longer: seq<Frame>): set<Frame> {
    set k | |frames| <= k < |longer| :: longer[k]
  }

  lemma {:induction false} AddedOne(frames: seq<Frame>, f: Frame)
    ensures Added(frames, frames) == {} && Added(frames, frames + [f]) == {f}
  {
    assert (frames + [f])[|frames|] == f;
  }

  /** The step for a wake-up of attempt `i`'s send loop. */
  function SendAction(i: nat, o: Outgoing): Action {
    match o
    case Text(text, now, ok) => SendText(i, text, now, ok)
    case OutboundClosed(now, ok) => CloseOutbound(i, now, ok)
    case HeartbeatDue(now, ok) => SendHeartbeat(i, now, ok)
  }

  /** A sending step is a turn of the send loop: same counter, same frame if any, same fate on a failed send or a close. */
  lemma {:induction false} SendingIsTheLoop(kdf: NonceKdf, s: Sys, i: nat, o: Outgoing, frames: seq<Frame>)
    requires i < |s.attempts| && s.attempts[i].phase.Up? && s.attempts[i].sending && 0 <= s.attempts[i].counter <= I64_MAX
    ensures var a, s' := s.attempts[i], Next(kdf, s, SendAction(i, o));
            var looped := SendStep(kdf, KeysOf(a), Sending(a.counter, frames, true), o);
            && |s'.attempts| == |s.attempts|
            && looped.counter == s'.attempts[i].counter && looped.running == s'.attempts[i].sending
            && frames <= looped.frames && s'.net == s.net + Added(frames, looped.frames)
  {
    var a := s.attempts[i];
    var turn := Sending(a.counter, frames, true);
    SendActionMoves(kdf, s, i, o);
    LoopMoves(kdf, KeysOf(a), turn, o);
    if Emits(turn, o) {
      AddedOne(frames, FrameFor(kdf, KeysOf(a), a.counter, o));
    } else {
      AddedOne(frames, Junk([]));
    }
  }

  lemma {:induction false} LoopMoves(kdf: NonceKdf, keys: Keys, turn: Sending, o: Outgoing)
    requires turn.running && 0 <= turn.counter <= I64_MAX
    ensures SendStep(kdf, keys, turn, o) ==
            Sending(if o.Text? && turn.counter < I64_MAX then turn.counter + 1 else turn.counter,
                    if Emits(turn, o) then turn.frames + [FrameFor(kdf, keys, turn.counter, o)] else turn.frames,
                    Emits(turn, o) && !o.OutboundClosed?)
  {
  }

  /** A sending step, for any wake-up: it moves the one attempt and puts at most one frame on the network. */
  lemma {:induction false} SendActionMoves(kdf: NonceKdf, s: Sys, i: nat, o: Outgoing)
    requires i < |s.attempts| && s.attempts[i].phase.Up? && s.attempts[i].sending && 0 <= s.attempts[i].counter <= I64_MAX
    ensures var a, s' := s.attempts[i], Next(kdf, s, SendAction(i, o));
            var goesOut := o.ok && (o.Text? ==> a.counter < I64_MAX);
            var counted := o.Text? && a.counter < I64_MAX;
            && s'.attempts == s.attempts[i := a.(counter := if counted then a.counter + 1 else a.counter,
                                                 sent := if counted then a.sent + [o.text] else a.sent,
                                                 sending := goesOut && !o.OutboundClosed?)]
            && s'.net == if goesOut then s.net + {FrameFor(kdf, KeysOf(a), a.counter, o)} else s.net
  {
    match o
    case Text(text, now, ok) =>
    case OutboundClosed(now, ok) =>
    case HeartbeatDue(now, ok) =>
  }

  /** A receive step is a turn of the receive loop on the frame that arrived. */
  lemma {:induction false} ReceivingIsTheLoop(kdf: NonceKdf, s: Sys, i: nat, f: Frame, now: i64)
    requires i < |s.attempts| && s.attempts[i].phase.Up? && s.attempts[i].inbox.running
    requires MayArrive(s, f, s.attempts[i].peer)
    ensures var a, s' := s.attempts[i], Next(kdf, s, ReceiveFrame(i, f, now));
            var h := HandleInboundFrame(kdf, KeysOf(a), a.inbox.last, Inbound(f, now));
            && |s'.attempts| == |s.attempts| && s'.net == s.net
            && s'.attempts[i].inbox.last == h.last && s'.attempts[i].inbox.running == h.goOn
            && s'.attempts[i].inbox.delivered == a.inbox.delivered + (if h.delivered.Some? then [h.delivered.value] else [])
  {
    HandlingIsTaking(kdf, KeysOf(s.attempts[i]), s.attempts[i].inbox, Inbound(f, now));
  }

  /**
    A step that receives in a handshake is that wake-up of the handshake: the attempt
    goes up exactly when the handshake returns a key, and then with the directional
    keys split from the key returned; otherwise nothing happens.
   */
  lemma {:induction false} ReceiveInitIsTheHandshake(kdf: NonceKdf, s: Sys, i: nat, f: Frame, now: i64, path: Path, outcome: Result<Key, HandshakeError>)
    requires i < |s.attempts| && Handshaking(s.attempts[i]) && MayArrive(s, f, s.attempts[i].peer)
    requires IsOutcome(path, s.attempts[i].peer, Secret(s.attempts[i].eph), [Received(f, now)], outcome)
    ensures var a, s' := s.attempts[i], Next(kdf, s, ReceiveInit(i, f, now));
            && |s'.attempts| == |s.attempts| && s'.net == s.net
            && (s'.attempts[i].phase.Up? <==> outcome.Ok?)
            && (outcome.Ok? ==> KeysOf(s'.attempts[i]) == SplitKey(a.me, a.peer, outcome.value) && s'.attempts[i] == a.(phase := s'.attempts[i].phase))
            && (outcome.Err? ==> s' == s && outcome == Err(Timeout))
  {
    var wakes := [Received(f, now)];
    if AcceptInit(s.attempts[i].peer, f, now).Some? {
      assert FirstDecisive(path, s.attempts[i].peer, wakes, 0);
      assert wakes[0] == Received(f, now);
    } else {
      assert forall k :: 0 <= k < |wakes| ==> !Decides(path, s.attempts[i].peer, wakes[k]);
    }
  }

  /**
    How a connect attempt moves on when something fails: from the punch or the direct
    handshake to the relay, from the relay to giving up; a session is past all that.
   */
  lemma {:induction false} FallsBack(kdf: NonceKdf, s: Sys, i: nat, ok: bool)
    requires i < |s.attempts|
    ensures var a, punched, timedOut := s.attempts[i], Next(kdf, s, Punched(i, ok)), Next(kdf, s, HandshakeTimeout(i));
            && punched == Put(s, i, a.(phase := if !a.phase.Punching? then a.phase else if ok then DirectHandshake else RelayHandshake))
            && timedOut == Put(s, i, a.(phase := if a.phase.DirectHandshake? then RelayHandshake else if a.phase.RelayHandshake? then Failed else a.phase))
  {
    var a := s.attempts[i];
    assert s.attempts[i := a] == s.attempts;
  }

  // ---- The invariant ----------------------------------------------------------

  /** Frame `f` is one that attempt `a` has put on the network. */
  ghost predicate MadeBy(kdf: NonceKdf, a: Attempt, f: Frame) {
    && f.Decoded?
    && f.pm == NewMessage(f.pm.payload, a.me, f.pm.timestamp)
    && match f.pm.payload
       case Init(e) => e == a.eph
       case ChatMessage(c, body) =>
         && a.phase.Up? && 1 <= c <= |a.sent|
         && body == EncryptMessageForChat(kdf, a.sent[c - 1], KeysOf(a).send, AsU64(c))
       case HeartBeat => true
       case End => true
       case _ => false
  }

  ghost predicate FreshEphemerals(s: Sys) {
    forall i, j :: 0 <= i < j < |s.attempts| ==> s.attempts[i].eph != s.attempts[j].eph
  }

  ghost predicate NetIsMade(kdf: NonceKdf, s: Sys) {
    forall f :: f in s.net ==> exists k :: 0 <= k < |s.attempts| && MadeBy(kdf, s.attempts[k], f)
  }

  /** If the accepted ephemeral is anyone's, it is one of the intended peer's. */
  ghost predicate PeerIsReal(s: Sys, a: Attempt) {
    a.phase.Up? ==> forall k :: 0 <= k < |s.attempts| && s.attempts[k].eph == a.phase.peerEph ==> s.attempts[k].me == a.peer
  }

  predicate Bookkeeping(a: Attempt) {
    && a.me.x != a.peer.x
    && a.counter == |a.sent| <= I64_MAX
    && a.inbox.last >= -1
    && (!a.phase.Up? ==> a.sent == [] && a.inbox == Start)
  }

  /** Attempts `i` and `k` face each other and each accepted the other's ephemeral. */
  ghost predicate Mutual(s: Sys, i: nat, k: nat) {
    && i < |s.attempts| && k < |s.attempts|
    && s.attempts[i].phase.Up? && s.attempts[k].phase.Up?
    && s.attempts[i].peer == s.attempts[k].me && s.attempts[k].peer == s.attempts[i].me
    && s.attempts[i].phase.peerEph == s.attempts[k].eph
    && s.attempts[k].phase.peerEph == s.attempts[i].eph
  }

  /** The delivered chats are texts of `sent`, each under its own number, in strictly increasing order. */
  ghost predicate SubsequenceOf(delivered: seq<Chat>, sent: seq<string>) {
    && (forall d :: 0 <= d < |delivered| ==>
          1 <= delivered[d].counter <= |sent| && delivered[d].text == sent[delivered[d].counter - 1])
    && (forall d, e :: 0 <= d < e < |delivered| ==> delivered[d].counter < delivered[e].counter)
  }

  ghost predicate DeliveriesJustified(s: Sys, i: nat)
    requires i < |s.attempts|
  {
    var inbox := s.attempts[i].inbox;
    && (forall d :: 0 <= d < |inbox.delivered| ==> inbox.delivered[d].counter <= inbox.last)
    && (inbox.delivered != [] ==> exists k: nat :: Mutual(s, i, k) && SubsequenceOf(inbox.delivered, s.attempts[k].sent))
  }

  ghost predicate UsesRecorded(kdf: NonceKdf, s: Sys) {
    && (forall n :: 0 <= n < |s.uses| ==>
          var u := s.uses[n];
          && u.session < |s.attempts| && s.attempts[u.session].phase.Up?
          && 1 <= u.counter <= s.attempts[u.session].counter && u.counter <= I64_MAX
          && u.key == MessageKey(KeysOf(s.attempts[u.session]).send)
          && u.nonce == MessageNonce(kdf, KeysOf(s.attempts[u.session]).send, AsU64(u.counter)))
    && (forall m, n :: 0 <= m < n < |s.uses| ==> s.uses[m].session == s.uses[n].session ==> s.uses[m].counter < s.uses[n].counter)
  }

  ghost predicate Local(s: Sys) {
    forall i :: 0 <= i < |s.attempts| ==> Bookkeeping(s.attempts[i]) && PeerIsReal(s, s.attempts[i])
  }

  ghost predicate Inv(kdf: NonceKdf, s: Sys) {
    && FreshEphemerals(s)
    && Local(s)
    && NetIsMade(kdf, s)
    && (forall i :: 0 <= i < |s.attempts| ==> DeliveriesJustified(s, i))
    && UsesRecorded(kdf, s)
  }

  // ---- Attempts only grow -----------------------------------------------------

  predicate GrowsInto(a: Attempt, b: Attempt) {
    && a.me == b.me && a.peer == b.peer && a.eph == b.eph
    && (a.phase.Up? ==> b.phase == a.phase)
    && a.sent <= b.sent && a.counter <= b.counter
  }

  ghost predicate Grown(s: Sys, s': Sys) {
    && |s.attempts| <= |s'.attempts|
    && forall i :: 0 <= i < |s.attempts| ==> GrowsInto(s.attempts[i], s'.attempts[i])
  }

  /** Attempts that are new drew ephemerals nobody had heard of. */
  ghost predicate NewAreFresh(s: Sys, s': Sys) {
    forall k :: |s.attempts| <= k < |s'.attempts| ==> Unheard(s, s'.attempts[k].eph)
  }

  lemma {:induction false} MadeByKept(kdf: NonceKdf, a: Attempt, b: Attempt, f: Frame)
    requires GrowsInto(a, b) && MadeBy(kdf, a, f)
    ensures MadeBy(kdf, b, f)
  {
  }

  /** Everything the invariant says by way of another attempt survives growth. */
  lemma {:induction false} GrowthKeeps(kdf: NonceKdf, s: Sys, s': Sys)
    requires Inv(kdf, s) && Grown(s, s') && NewAreFresh(s, s')
    ensures forall f :: f in s.net ==> exists k :: 0 <= k < |s'.attempts| && MadeBy(kdf, s'.attempts[k], f)
    ensures forall i :: 0 <= i < |s.attempts| && s'.attempts[i].phase == s.attempts[i].phase ==> PeerIsReal(s', s'.attempts[i])
    ensures forall i :: 0 <= i < |s.attempts| && s'.attempts[i].inbox == s.attempts[i].inbox ==> DeliveriesJustified(s', i)
    ensures s'.uses == s.uses ==> UsesRecorded(kdf, s')
  {
    forall f | f in s.net
      ensures exists k :: 0 <= k < |s'.attempts| && MadeBy(kdf, s'.attempts[k], f)
    {
      var k :| 0 <= k < |s.attempts| && MadeBy(kdf, s.attempts[k], f);
      MadeByKept(kdf, s.attempts[k], s'.attempts[k], f);
    }
    forall i | 0 <= i < |s.attempts| && s'.attempts[i].phase == s.attempts[i].phase
      ensures PeerIsReal(s', s'.attempts[i])
    {
      PeerStaysReal(s, s', i);
    }
    forall i | 0 <= i < |s.attempts| && s'.attempts[i].inbox == s.attempts[i].inbox
      ensures DeliveriesJustified(s', i)
    {
      DeliveriesKept(s, s', i);
    }
  }

  lemma {:induction false} PeerStaysReal(s: Sys, s': Sys, i: nat)
    requires Grown(s, s') && NewAreFresh(s, s') && i < |s.attempts|
    requires PeerIsReal(s, s.attempts[i]) && s'.attempts[i].phase == s.attempts[i].phase
    ensures PeerIsReal(s', s'.attempts[i])
  {
    var a := s.attempts[i];
    assert a in s.attempts;
    if a.phase.Up? {
      forall k | 0 <= k < |s'.attempts| && s'.attempts[k].eph == a.phase.peerEph ensures s'.attempts[k].me == a.peer {
        if k < |s.attempts| {
          assert s'.attempts[k].eph == s.attempts[k].eph && s'.attempts[k].me == s.attempts[k].me;
        }
      }
    }
  }

  lemma {:induction false} DeliveriesKept(s: Sys, s': Sys, i: nat)
    requires i < |s.attempts| && Grown(s, s') && DeliveriesJustified(s, i)
    requires s'.attempts[i].inbox == s.attempts[i].inbox
    ensures DeliveriesJustified(s', i)
  {
    var d := s.attempts[i].inbox.delivered;
    if d != [] {
      var k: nat :| Mutual(s, i, k) && SubsequenceOf(d, s.attempts[k].sent);
      assert Mutual(s', i, k);
      assert s.attempts[k].sent <= s'.attempts[k].sent;
      assert SubsequenceOf(d, s'.attempts[k].sent);
    }
  }

  // ---- Authentic arrivals were sent -------------------------------------------

  /** A frame that attempt `a` made, up to the variant its payload bytes are read as. */
  ghost predicate SameSigned(g: Frame, f: Frame) {
    && g.Decoded? && f.Decoded?
    && g.pm.sender == f.pm.sender && g.pm.timestamp == f.pm.timestamp && g.pm.signature == f.pm.signature
    && PayloadBytes(g.pm.payload) == PayloadBytes(f.pm.payload)
  }

  /** Whatever the network hands over, a frame that verifies carries what an attempt of that peer signed, unless it is a chat read as an Init. */
  lemma {:induction false} ArrivalWasSigned(kdf: NonceKdf, s: Sys, f: Frame, peer: Identity) returns (k: nat, g: Frame)
    requires NetIsMade(kdf, s) && MayArrive(s, f, peer) && Authentic(f, peer) && !ChatReadAsInit(s, f)
    ensures k < |s.attempts| && MadeBy(kdf, s.attempts[k], g) && s.attempts[k].me == peer && SameSigned(g, f)
  {
    if f in s.net {
      g := f;
    } else {
      g :| g in s.net && BuiltAround(g, f);
    }
    k :| 0 <= k < |s.attempts| && MadeBy(kdf, s.attempts[k], g);
    SignatureBindsBytes(g.pm.payload, s.attempts[k].me, g.pm.timestamp, f.pm, peer);
  }

  lemma {:induction false} MadeIsSendable(kdf: NonceKdf, a: Attempt, f: Frame)
    requires MadeBy(kdf, a, f)
    ensures Sendable(f.pm.payload)
  {
  }

  /** Read as an Init, or as a chat that could open, an arrival is the very frame the peer's attempt sent. */
  lemma {:induction false} ArrivalWasSent(kdf: NonceKdf, s: Sys, f: Frame, peer: Identity) returns (k: nat)
    requires NetIsMade(kdf, s) && MayArrive(s, f, peer) && Authentic(f, peer) && !ChatReadAsInit(s, f)
    requires f.pm.payload.Init? || (f.pm.payload.ChatMessage? && IsCiphertext(f.pm.payload.body))
    ensures k < |s.attempts| && MadeBy(kdf, s.attempts[k], f) && s.attempts[k].me == peer
  {
    var g;
    k, g := ArrivalWasSigned(kdf, s, f, peer);
    MadeIsSendable(kdf, s.attempts[k], g);
    ReframedPayload(g.pm.payload, f.pm.payload);
    assert f == g;
  }

  // ---- Keys ---------------------------------------------------------------------

  /** The owner of an accepted ephemeral, if there is one, is the intended peer. */
  lemma {:induction false} OwnerIsPeer(s: Sys, i: nat, k: nat)
    requires FreshEphemerals(s) && Local(s)
    requires i < |s.attempts| && k < |s.attempts| && s.attempts[i].phase.Up?
    requires s.attempts[i].phase.peerEph == s.attempts[k].eph
    ensures s.attempts[i].peer == s.attempts[k].me
  {
    assert PeerIsReal(s, s.attempts[i]);
  }

  /** A key one session sends under is a key another receives under exactly if they are each other's. */
  lemma {:induction false} SendMeetsReceive(s: Sys, i: nat, k: nat)
    requires FreshEphemerals(s) && Local(s)
    requires i < |s.attempts| && k < |s.attempts| && s.attempts[i].phase.Up? && s.attempts[k].phase.Up?
    ensures KeysOf(s.attempts[k]).send == KeysOf(s.attempts[i]).recv <==> Mutual(s, i, k)
  {
    var a, b := s.attempts[i], s.attempts[k];
    assert Bookkeeping(a) && Bookkeeping(b);
    if Mutual(s, i, k) {
      KeysCross(b.me, a.me, Secret(b.eph), Secret(a.eph));
    } else if KeysOf(b).send == KeysOf(a).recv {
      UnorderedPairs(b.eph, b.phase.peerEph, a.eph, a.phase.peerEph);
      if b.eph != a.eph {
        OwnerIsPeer(s, i, k);
        OwnerIsPeer(s, k, i);
      }
    }
  }

  /** No two sessions send under one key. */
  lemma {:induction false} SendKeysDiffer(s: Sys, i: nat, k: nat)
    requires FreshEphemerals(s) && Local(s)
    requires i < |s.attempts| && k < |s.attempts| && s.attempts[i].phase.Up? && s.attempts[k].phase.Up?
    ensures KeysOf(s.attempts[i]).send == KeysOf(s.attempts[k]).send <==> i == k
  {
    var a, b := s.attempts[i], s.attempts[k];
    assert Bookkeeping(a) && Bookkeeping(b);
    if KeysOf(a).send == KeysOf(b).send {
      UnorderedPairs(a.eph, a.phase.peerEph, b.eph, b.phase.peerEph);
      if a.eph != b.eph {
        OwnerIsPeer(s, i, k);
        OwnerIsPeer(s, k, i);
        ExactlyOneIsFirst(a.me.x, b.me.x);
      }
    }
  }

  // ---- Steps --------------------------------------------------------------------

  lemma {:induction false} BeginKeeps(kdf: NonceKdf, s: Sys, act: Action)
    requires Inv(kdf, s) && act.Begin?
    ensures Inv(kdf, Next(kdf, s, act))
  {
    if Next(kdf, s, act) != s {
      JoinKeeps(kdf, s, Attempt(act.me, act.peer, act.eph, Punching, 0, [], true, Start));
    }
  }

  /** One more attempt, with an ephemeral nobody has heard of. */
  lemma {:induction false} JoinKeeps(kdf: NonceKdf, s: Sys, a: Attempt)
    requires Inv(kdf, s) && Unheard(s, a.eph)
    requires Bookkeeping(a) && a.phase.Punching?
    ensures Inv(kdf, s.(attempts := s.attempts + [a]))
  {
    var s' := s.(attempts := s.attempts + [a]);
    assert Grown(s, s') && NewAreFresh(s, s');
    GrowthKeeps(kdf, s, s');
    JoinKeepsLocal(s, a);
    assert DeliveriesJustified(s', |s.attempts|);
  }

  lemma {:induction false} JoinKeepsLocal(s: Sys, a: Attempt)
    requires FreshEphemerals(s) && Local(s) && Unheard(s, a.eph)
    requires Bookkeeping(a) && a.phase.Punching?
    ensures FreshEphemerals(s.(attempts := s.attempts + [a])) && Local(s.(attempts := s.attempts + [a]))
  {
    var s' := s.(attempts := s.attempts + [a]);
    forall i | 0 <= i < |s.attempts| ensures s.attempts[i].eph != a.eph && PeerIsReal(s', s.attempts[i]) {
      assert s.attempts[i] in s.attempts;
      PeerStaysReal(s, s', i);
    }
  }

  lemma {:induction false} PutKeepsLocal(s: Sys, i: nat, b: Attempt)
    requires FreshEphemerals(s) && Local(s) && i < |s.attempts|
    requires GrowsInto(s.attempts[i], b) && Bookkeeping(b) && PeerIsReal(s, b)
    ensures FreshEphemerals(Put(s, i, b)) && Local(Put(s, i, b))
  {
    var s' := Put(s, i, b);
    forall j | 0 <= j < |s'.attempts| ensures PeerIsReal(s', s'.attempts[j]) {
      assert PeerIsReal(s, s'.attempts[j]);
    }
  }

  /** A step that changes one attempt, its deliveries still justified. */
  lemma {:induction false} PutKeeps(kdf: NonceKdf, s: Sys, i: nat, b: Attempt)
    requires Inv(kdf, s) && i < |s.attempts|
    requires GrowsInto(s.attempts[i], b) && Bookkeeping(b) && PeerIsReal(s, b)
    requires DeliveriesJustified(Put(s, i, b), i)
    ensures Inv(kdf, Put(s, i, b))
  {
    PutKeepsLocal(s, i, b);
    assert Grown(s, Put(s, i, b));
    GrowthKeeps(kdf, s, Put(s, i, b));
  }

  /** A step that changes one attempt and leaves its deliveries alone. */
  lemma {:induction false} QuietKeeps(kdf: NonceKdf, s: Sys, i: nat, b: Attempt)
    requires Inv(kdf, s) && i < |s.attempts|
    requires GrowsInto(s.attempts[i], b) && Bookkeeping(b) && PeerIsReal(s, b)
    requires b.inbox == s.attempts[i].inbox
    ensures Inv(kdf, Put(s, i, b))
  {
    DeliveriesKept(s, Put(s, i, b), i);
    PutKeeps(kdf, s, i, b);
  }

  lemma {:induction false} TransmitKeeps(kdf: NonceKdf, s: Sys, i: nat, f: Frame, ok: bool)
    requires Inv(kdf, s) && i < |s.attempts| && MadeBy(kdf, s.attempts[i], f)
    ensures Inv(kdf, Transmit(s, f, ok))
  {
    var s' := Transmit(s, f, ok);
    assert Grown(s, s');
    GrowthKeeps(kdf, s, s');
  }

  lemma {:induction false} SendTextKeeps(kdf: NonceKdf, s: Sys, i: nat, text: string, now: i64, ok: bool)
    requires Inv(kdf, s) && i < |s.attempts| && s.attempts[i].phase.Up? && 0 <= s.attempts[i].counter < I64_MAX
    ensures Inv(kdf, DoSendText(kdf, s, i, text, now, ok))
  {
    var a := s.attempts[i];
    var c := a.counter + 1;
    var b := a.(counter := c, sent := a.sent + [text], sending := ok);
    var s1 := Put(s, i, b);
    QuietKeeps(kdf, s, i, b);
    var used := Use(MessageKey(KeysOf(a).send), MessageNonce(kdf, KeysOf(a).send, AsU64(c)), i, c);
    var s2 := s1.(uses := s.uses + [used]);
    UsesExtended(kdf, s, i, b, used);
    OnlyUsesDiffer(kdf, s1, s2);
    TransmitKeeps(kdf, s2, i, ChatFrame(kdf, KeysOf(a), c, text, now), ok);
  }

  lemma {:induction false} UsesExtended(kdf: NonceKdf, s: Sys, i: nat, b: Attempt, used: Use)
    requires UsesRecorded(kdf, s) && i < |s.attempts| && s.attempts[i].phase.Up?
    requires GrowsInto(s.attempts[i], b) && b.counter == s.attempts[i].counter + 1 <= I64_MAX && s.attempts[i].counter >= 0
    requires used == Use(MessageKey(KeysOf(b).send), MessageNonce(kdf, KeysOf(b).send, AsU64(b.counter)), i, b.counter)
    ensures UsesRecorded(kdf, Put(s, i, b).(uses := s.uses + [used]))
  {
    assert KeysOf(b) == KeysOf(s.attempts[i]);
  }

  lemma {:induction false} OnlyUsesDiffer(kdf: NonceKdf, s: Sys, s': Sys)
    requires Inv(kdf, s) && s' == s.(uses := s'.uses) && UsesRecorded(kdf, s')
    ensures Inv(kdf, s')
  {
    assert Grown(s, s');
    GrowthKeeps(kdf, s, s');
  }

  lemma {:induction false} ReceiveInitKeeps(kdf: NonceKdf, s: Sys, i: nat, f: Frame, now: i64)
    requires Inv(kdf, s) && i < |s.attempts| && Handshaking(s.attempts[i])
    requires MayArrive(s, f, s.attempts[i].peer) && AcceptInit(s.attempts[i].peer, f, now).Some?
    ensures Inv(kdf, Put(s, i, s.attempts[i].(phase := Up(AcceptInit(s.attempts[i].peer, f, now).value))))
  {
    var a := s.attempts[i];
    var b := a.(phase := Up(f.pm.payload.ephemeral));
    assert PeerIsReal(s, b) by {
      AcceptedIsReal(kdf, s, f, b);
    }
    QuietKeeps(kdf, s, i, b);
  }

  lemma {:induction false} AcceptedIsReal(kdf: NonceKdf, s: Sys, f: Frame, b: Attempt)
    requires NetIsMade(kdf, s) && FreshEphemerals(s) && MayArrive(s, f, b.peer) && Authentic(f, b.peer)
    requires f.pm.payload.Init? && b.phase == Up(f.pm.payload.ephemeral)
    ensures PeerIsReal(s, b)
  {
    if ChatReadAsInit(s, f) {
      forall k | 0 <= k < |s.attempts| ensures s.attempts[k].eph != b.phase.peerEph {
        assert s.attempts[k] in s.attempts;
      }
    } else {
      var k := ArrivalWasSent(kdf, s, f, b.peer);
    }
  }

  /** The heart of it: a chat that opens was sealed by the one session facing this one. */
  lemma {:induction false} OpenedChatIsPartners(kdf: NonceKdf, s: Sys, i: nat, f: Frame, now: i64) returns (k: nat)
    requires Inv(kdf, s) && i < |s.attempts| && s.attempts[i].phase.Up?
    requires MayArrive(s, f, s.attempts[i].peer)
    requires See(kdf, KeysOf(s.attempts[i]), Inbound(f, now)).ChatSeen?
    ensures Mutual(s, i, k) && MadeBy(kdf, s.attempts[k], f)
    ensures var c := See(kdf, KeysOf(s.attempts[i]), Inbound(f, now)).chat;
            1 <= c.counter <= |s.attempts[k].sent| && c.text == s.attempts[k].sent[c.counter - 1]
  {
    var keys := KeysOf(s.attempts[i]);
    OpenedIsCiphertext(kdf, keys, f, now);
    k := ArrivalWasSent(kdf, s, f, s.attempts[i].peer);
    var b := s.attempts[k];
    var c := f.pm.payload.counter;
    ChatOpensExactly(kdf, b.sent[c - 1], KeysOf(b).send, AsU64(c), keys.recv, AsU64(c));
    SendMeetsReceive(s, i, k);
  }

  lemma {:induction false} OpenedIsCiphertext(kdf: NonceKdf, keys: Keys, f: Frame, now: i64)
    requires See(kdf, keys, Inbound(f, now)).ChatSeen?
    ensures Authentic(f, keys.peer) && f.pm.payload.ChatMessage? && IsCiphertext(f.pm.payload.body)
    ensures var c := f.pm.payload.counter;
            && See(kdf, keys, Inbound(f, now)).chat.counter == c
            && DecryptMessageFromChat(kdf, f.pm.payload.body, keys.recv, AsU64(c)) == Ok(See(kdf, keys, Inbound(f, now)).chat.text)
  {
  }

  lemma {:induction false} PartnerIsUnique(s: Sys, i: nat, k: nat, k': nat)
    requires FreshEphemerals(s) && Mutual(s, i, k) && Mutual(s, i, k')
    ensures k == k'
  {
  }

  lemma {:induction false} ReceiveFrameKeeps(kdf: NonceKdf, s: Sys, i: nat, f: Frame, now: i64)
    requires Inv(kdf, s) && i < |s.attempts| && s.attempts[i].phase.Up?
    requires MayArrive(s, f, s.attempts[i].peer)
    ensures Inv(kdf, Put(s, i, s.attempts[i].(inbox := Take(s.attempts[i].inbox, See(kdf, KeysOf(s.attempts[i]), Inbound(f, now))))))
  {
    var a := s.attempts[i];
    var seen := See(kdf, KeysOf(a), Inbound(f, now));
    if seen.ChatSeen? {
      var k := OpenedChatIsPartners(kdf, s, i, f, now);
      assert JustifiedBy(s, i, k, seen);
    }
    SeenKeeps(kdf, s, i, seen);
  }

  ghost predicate JustifiedBy(s: Sys, i: nat, k: nat, seen: Seen) {
    && seen.ChatSeen? && Mutual(s, i, k)
    && 1 <= seen.chat.counter <= |s.attempts[k].sent| && seen.chat.text == s.attempts[k].sent[seen.chat.counter - 1]
  }

  lemma {:induction false} SeenKeeps(kdf: NonceKdf, s: Sys, i: nat, seen: Seen)
    requires Inv(kdf, s) && i < |s.attempts| && s.attempts[i].phase.Up?
    requires seen.ChatSeen? ==> exists k: nat :: JustifiedBy(s, i, k, seen)
    ensures Inv(kdf, Put(s, i, s.attempts[i].(inbox := Take(s.attempts[i].inbox, seen))))
  {
    var r := Take(s.attempts[i].inbox, seen);
    assert Bookkeeping(s.attempts[i]);
    assert r.last >= -1;
    SeenIsJustified(s, i, seen);
    InboxKeeps(kdf, s, i, r);
  }

  lemma {:induction false} SeenIsJustified(s: Sys, i: nat, seen: Seen)
    requires FreshEphemerals(s) && i < |s.attempts| && DeliveriesJustified(s, i)
    requires seen.ChatSeen? ==> exists k: nat :: JustifiedBy(s, i, k, seen)
    ensures DeliveriesJustified(Put(s, i, s.attempts[i].(inbox := Take(s.attempts[i].inbox, seen))), i)
  {
    if seen.ChatSeen? {
      var k: nat :| JustifiedBy(s, i, k, seen);
      ChatTaken(s, i, k, seen.chat);
    } else {
      InboxFlagOnly(s, Put(s, i, s.attempts[i].(inbox := Take(s.attempts[i].inbox, seen))), i);
    }
  }

  lemma {:induction false} InboxKeeps(kdf: NonceKdf, s: Sys, i: nat, r: Receiving)
    requires Inv(kdf, s) && i < |s.attempts| && s.attempts[i].phase.Up? && r.last >= -1
    requires DeliveriesJustified(Put(s, i, s.attempts[i].(inbox := r)), i)
    ensures Inv(kdf, Put(s, i, s.attempts[i].(inbox := r)))
  {
    var a := s.attempts[i];
    assert Bookkeeping(a) && PeerIsReal(s, a);
    PutKeeps(kdf, s, i, a.(inbox := r));
  }

  lemma {:induction false} ChatTaken(s: Sys, i: nat, k: nat, c: Chat)
    requires FreshEphemerals(s) && i < |s.attempts| && DeliveriesJustified(s, i) && Mutual(s, i, k)
    requires 1 <= c.counter <= |s.attempts[k].sent| && c.text == s.attempts[k].sent[c.counter - 1]
    ensures DeliveriesJustified(Put(s, i, s.attempts[i].(inbox := Take(s.attempts[i].inbox, ChatSeen(c)))), i)
  {
    var a := s.attempts[i];
    var r := Take(a.inbox, ChatSeen(c));
    var s' := Put(s, i, a.(inbox := r));
    assert Grown(s, s');
    if r == a.inbox {
      DeliveriesKept(s, s', i);
    } else {
      DeliveryExtends(s, i, k, c);
      assert Mutual(s', i, k) && s'.attempts[k].sent == s.attempts[k].sent;
    }
  }

  lemma {:induction false} InboxFlagOnly(s: Sys, s': Sys, i: nat)
    requires i < |s.attempts| && Grown(s, s') && DeliveriesJustified(s, i)
    requires s'.attempts[i].inbox.delivered == s.attempts[i].inbox.delivered
    requires s'.attempts[i].inbox.last == s.attempts[i].inbox.last
    ensures DeliveriesJustified(s', i)
  {
    var t := s'.(attempts := s'.attempts[i := s'.attempts[i].(inbox := s.attempts[i].inbox)]);
    DeliveriesKept(s, t, i);
    var d := s.attempts[i].inbox.delivered;
    if d != [] {
      var k: nat :| Mutual(t, i, k) && SubsequenceOf(d, t.attempts[k].sent);
      assert Mutual(s', i, k) && s'.attempts[k].sent == t.attempts[k].sent;
    }
  }

  lemma {:induction false} DeliveryExtends(s: Sys, i: nat, k: nat, c: Chat)
    requires FreshEphemerals(s) && i < |s.attempts| && DeliveriesJustified(s, i) && Mutual(s, i, k)
    requires c.counter > s.attempts[i].inbox.last
    requires 1 <= c.counter <= |s.attempts[k].sent| && c.text == s.attempts[k].sent[c.counter - 1]
    ensures SubsequenceOf(s.attempts[i].inbox.delivered + [c], s.attempts[k].sent)
  {
    var d := s.attempts[i].inbox.delivered;
    if d != [] {
      var k': nat :| Mutual(s, i, k') && SubsequenceOf(d, s.attempts[k'].sent);
      PartnerIsUnique(s, i, k, k');
    }
  }

  lemma {:induction false} StepKeeps(kdf: NonceKdf, s: Sys, act: Action)
    requires Inv(kdf, s)
    ensures Inv(kdf, Next(kdf, s, act))
  {
    if act.Begin? {
      BeginKeeps(kdf, s, act);
    } else if act.i < |s.attempts| && Next(kdf, s, act) != s {
      var i, a := act.i, s.attempts[act.i];
      assert Bookkeeping(a) && PeerIsReal(s, a);
      match act
      case Punched(_, ok) => QuietKeeps(kdf, s, i, a.(phase := if ok then DirectHandshake else RelayHandshake));
      case SendInit(_, now) => TransmitKeeps(kdf, s, i, InitFrame(a.me, Secret(a.eph), now), true);
      case ReceiveInit(_, f, now) => ReceiveInitKeeps(kdf, s, i, f, now);
      case HandshakeTimeout(_) => QuietKeeps(kdf, s, i, a.(phase := if a.phase.DirectHandshake? then RelayHandshake else Failed));
      case SendText(_, text, now, ok) =>
        if a.counter < I64_MAX {
          SendTextKeeps(kdf, s, i, text, now, ok);
        } else {
          QuietKeeps(kdf, s, i, a.(sending := false));
        }
      case SendHeartbeat(_, now, ok) => SignalKeeps(kdf, s, i, HeartBeat, now, ok, ok);
      case CloseOutbound(_, now, ok) => SignalKeeps(kdf, s, i, End, now, ok, false);
      case ReceiveFrame(_, f, now) => ReceiveFrameKeeps(kdf, s, i, f, now);
      case TransportLost(_) => LostKeeps(kdf, s, i);
    }
  }

  /** A heartbeat or an End, and whether the loop then goes on. */
  lemma {:induction false} SignalKeeps(kdf: NonceKdf, s: Sys, i: nat, p: Payload, now: i64, ok: bool, goOn: bool)
    requires Inv(kdf, s) && i < |s.attempts| && s.attempts[i].phase.Up? && (p.HeartBeat? || p.End?)
    ensures Inv(kdf, Transmit(Put(s, i, s.attempts[i].(sending := goOn)), Decoded(NewMessage(p, s.attempts[i].me, now)), ok))
  {
    var a := s.attempts[i];
    assert Bookkeeping(a) && PeerIsReal(s, a);
    QuietKeeps(kdf, s, i, a.(sending := goOn));
    TransmitKeeps(kdf, Put(s, i, a.(sending := goOn)), i, Decoded(NewMessage(p, a.me, now)), ok);
  }

  lemma {:induction false} LostKeeps(kdf: NonceKdf, s: Sys, i: nat)
    requires Inv(kdf, s) && i < |s.attempts| && s.attempts[i].phase.Up?
    ensures Inv(kdf, Put(s, i, s.attempts[i].(inbox := s.attempts[i].inbox.(running := false))))
  {
    var a := s.attempts[i];
    var r := a.inbox.(running := false);
    assert Bookkeeping(a);
    InboxFlagOnly(s, Put(s, i, a.(inbox := r)), i);
    InboxKeeps(kdf, s, i, r);
  }

  lemma {:induction false} RunKeeps(kdf: NonceKdf, acts: seq<Action>)
    ensures Inv(kdf, Run(kdf, acts))
    decreases |acts|
  {
    if acts != [] {
      RunKeeps(kdf, acts[..|acts| - 1]);
      StepKeeps(kdf, Run(kdf, acts[..|acts| - 1]), acts[|acts| - 1]);
    }
  }

  lemma {:induction false} StepGrows(kdf: NonceKdf, s: Sys, act: Action)
    ensures Grown(s, Next(kdf, s, act))
  {
  }

  // ---- Theorems over every run --------------------------------------------------

  /**
    Whatever a session has delivered, after any run, is a strictly counter-increasing
    subsequence of the texts sent by one session of its peer, the two having
    accepted each other's ephemerals; no other attempt stands in that relation to it.
   */
  lemma {:induction false} DeliveredWasSent(kdf: NonceKdf, acts: seq<Action>, i: nat) returns (k: nat)
    requires i < |Run(kdf, acts).attempts| && Run(kdf, acts).attempts[i].inbox.delivered != []
    ensures var s := Run(kdf, acts);
            && Mutual(s, i, k) && k != i
            && SubsequenceOf(s.attempts[i].inbox.delivered, s.attempts[k].sent)
            && forall k': nat :: Mutual(s, i, k') ==> k' == k
  {
    RunKeeps(kdf, acts);
    var s := Run(kdf, acts);
    assert DeliveriesJustified(s, i);
    k :| Mutual(s, i, k) && SubsequenceOf(s.attempts[i].inbox.delivered, s.attempts[k].sent);
    assert Bookkeeping(s.attempts[i]);
  }

  lemma {:induction false} GrownChains(s: Sys, t: Sys, u: Sys)
    requires Grown(s, t) && Grown(t, u)
    ensures Grown(s, u)
  {
    forall i | 0 <= i < |s.attempts| ensures GrowsInto(s.attempts[i], u.attempts[i]) {
      assert GrowsInto(s.attempts[i], t.attempts[i]) && GrowsInto(t.attempts[i], u.attempts[i]);
    }
  }

  lemma {:induction false} RunGrowsByOne(kdf: NonceKdf, acts: seq<Action>, act: Action)
    ensures Grown(Run(kdf, acts), Run(kdf, acts + [act]))
  {
    RunAppend(kdf, acts, act);
    StepGrows(kdf, Run(kdf, acts), act);
  }

  /**
    Attempts are never undone or restarted: however the run goes on, an attempt
    that is up keeps its ephemeral pair, and hence its keys, for good, and its
    counter and sent texts only grow.
   */
  lemma {:induction false} OneSessionPerEphemeral(kdf: NonceKdf, acts: seq<Action>, more: seq<Action>)
    ensures Grown(Run(kdf, acts), Run(kdf, acts + more))
    decreases |more|
  {
    if more == [] {
      assert acts + more == acts;
    } else {
      var m := |more| - 1;
      OneSessionPerEphemeral(kdf, acts, more[..m]);
      assert acts + more == acts + more[..m] + [more[m]];
      RunGrowsByOne(kdf, acts + more[..m], more[m]);
      GrownChains(Run(kdf, acts), Run(kdf, acts + more[..m]), Run(kdf, acts + more));
    }
  }

  /**
    Whatever any attempt that is not this session's partner signed never delivers,
    whenever it arrives and as whatever variant it is then read.
   */
  lemma {:induction false} StrangersNeverDeliver(kdf: NonceKdf, acts: seq<Action>, i: nat, k: nat, g: Frame, f: Frame, now: i64)
    requires var s := Run(kdf, acts);
             && i < |s.attempts| && k < |s.attempts| && !Mutual(s, i, k)
             && MadeBy(kdf, s.attempts[k], g) && SameSigned(g, f)
    ensures var s' := Run(kdf, acts + [ReceiveFrame(i, f, now)]);
            i < |s'.attempts| && s'.attempts[i].inbox.delivered == Run(kdf, acts).attempts[i].inbox.delivered
  {
    RunKeeps(kdf, acts);
    RunAppend(kdf, acts, ReceiveFrame(i, f, now));
    StrangerStep(kdf, Run(kdf, acts), i, k, g, f, now);
  }

  lemma {:induction false} RunAppend(kdf: NonceKdf, acts: seq<Action>, act: Action)
    ensures Run(kdf, acts + [act]) == Next(kdf, Run(kdf, acts), act)
  {
    assert (acts + [act])[..|acts|] == acts;
  }

  lemma {:induction false} StrangerStep(kdf: NonceKdf, s: Sys, i: nat, k: nat, g: Frame, f: Frame, now: i64)
    requires FreshEphemerals(s) && Local(s)
    requires i < |s.attempts| && k < |s.attempts| && !Mutual(s, i, k)
    requires MadeBy(kdf, s.attempts[k], g) && SameSigned(g, f)
    ensures |Next(kdf, s, ReceiveFrame(i, f, now)).attempts| == |s.attempts|
    ensures Next(kdf, s, ReceiveFrame(i, f, now)).attempts[i].inbox.delivered == s.attempts[i].inbox.delivered
  {
    if s.attempts[i].phase.Up? {
      StrangerIsNotSeen(kdf, s, i, k, g, f, now);
    }
  }

  lemma {:induction false} StrangerIsNotSeen(kdf: NonceKdf, s: Sys, i: nat, k: nat, g: Frame, f: Frame, now: i64)
    requires FreshEphemerals(s) && Local(s)
    requires i < |s.attempts| && k < |s.attempts| && s.attempts[i].phase.Up? && !Mutual(s, i, k)
    requires MadeBy(kdf, s.attempts[k], g) && SameSigned(g, f)
    ensures !See(kdf, KeysOf(s.attempts[i]), Inbound(f, now)).ChatSeen?
  {
    var a, b := s.attempts[i], s.attempts[k];
    if See(kdf, KeysOf(a), Inbound(f, now)).ChatSeen? {
      OpenedIsCiphertext(kdf, KeysOf(a), f, now);
      MadeIsSendable(kdf, b, g);
      ReframedPayload(g.pm.payload, f.pm.payload);
      SendMeetsReceive(s, i, k);
      assert false;
    }
  }

  /** Across all sessions and both directions, no key and nonce are ever used for two encryptions. */
  lemma {:induction false} NoNonceReuse(kdf: NonceKdf, acts: seq<Action>, m: nat, n: nat)
    requires m < n < |Run(kdf, acts).uses|
    ensures var u, v := Run(kdf, acts).uses[m], Run(kdf, acts).uses[n];
            !(u.key == v.key && u.nonce == v.nonce)
  {
    RunKeeps(kdf, acts);
    var s := Run(kdf, acts);
    var u, v := s.uses[m], s.uses[n];
    if u.key == v.key && u.nonce == v.nonce {
      SendKeysDiffer(s, u.session, v.session);
      NonceInjective(kdf(Expand(KeysOf(s.attempts[u.session]).send, "nonce")), AsU64(u.counter), AsU64(v.counter));
      assert false;
    }
  }

  /** The log holds the use of session `i` for its `c`-th text. */
  ghost predicate UsedFor(s: Sys, i: nat, c: int) {
    exists n :: 0 <= n < |s.uses| && s.uses[n].session == i && s.uses[n].counter == c
  }

  ghost predicate AllUsesLogged(s: Sys) {
    forall i: nat, c :: i < |s.attempts| && 1 <= c <= s.attempts[i].counter ==> UsedFor(s, i, c)
  }

  /** Only sending a text moves a counter, and it logs a use as it does. */
  lemma {:induction false} CountersMove(kdf: NonceKdf, s: Sys, act: Action)
    ensures var s' := Next(kdf, s, act);
            && |s'.attempts| >= |s.attempts| && s.uses <= s'.uses
            && (forall j :: |s.attempts| <= j < |s'.attempts| ==> s'.attempts[j].counter == 0)
            && forall j :: 0 <= j < |s.attempts| && s'.attempts[j].counter != s.attempts[j].counter ==>
                 && s'.attempts[j].counter == s.attempts[j].counter + 1
                 && |s'.uses| > |s.uses| && s'.uses[|s.uses|].session == j && s'.uses[|s.uses|].counter == s'.attempts[j].counter
  {
  }

  lemma {:induction false} StepLogsUses(kdf: NonceKdf, s: Sys, act: Action)
    requires AllUsesLogged(s)
    ensures AllUsesLogged(Next(kdf, s, act))
  {
    var s' := Next(kdf, s, act);
    CountersMove(kdf, s, act);
    forall i: nat, c | i < |s'.attempts| && 1 <= c <= s'.attempts[i].counter ensures UsedFor(s', i, c) {
      if i < |s.attempts| && c <= s.attempts[i].counter {
        assert UsedFor(s, i, c);
        var n :| 0 <= n < |s.uses| && s.uses[n].session == i && s.uses[n].counter == c;
        assert s'.uses[n] == s.uses[n];
      } else {
        assert s'.uses[|s.uses|].session == i && s'.uses[|s.uses|].counter == c;
      }
    }
  }

  lemma {:induction false} RunLogsUses(kdf: NonceKdf, acts: seq<Action>)
    ensures AllUsesLogged(Run(kdf, acts))
    decreases |acts|
  {
    if acts != [] {
      RunLogsUses(kdf, acts[..|acts| - 1]);
      StepLogsUses(kdf, Run(kdf, acts[..|acts| - 1]), acts[|acts| - 1]);
    }
  }

  /** Nothing escapes the log: every ciphertext that ever reached the network was sealed under a logged key and nonce. */
  lemma {:induction false} EveryCiphertextIsLogged(kdf: NonceKdf, acts: seq<Action>, f: Frame) returns (n: nat, text: string)
    requires f in Run(kdf, acts).net && f.Decoded? && f.pm.payload.ChatMessage?
    ensures n < |Run(kdf, acts).uses|
    ensures var u := Run(kdf, acts).uses[n];
            f.pm.payload.body == AeadSeal(u.key, Octets(u.nonce), [Utf8(text)]) && f.pm.payload.counter == u.counter
  {
    var s := Run(kdf, acts);
    RunKeeps(kdf, acts);
    RunLogsUses(kdf, acts);
    var k: nat :| k < |s.attempts| && MadeBy(kdf, s.attempts[k], f);
    assert Bookkeeping(s.attempts[k]);
    n, text := MadeChatIsLogged(kdf, s, k, f);
  }

  lemma {:induction false} MadeChatIsLogged(kdf: NonceKdf, s: Sys, k: nat, f: Frame) returns (n: nat, text: string)
    requires UsesRecorded(kdf, s) && AllUsesLogged(s)
    requires k < |s.attempts| && Bookkeeping(s.attempts[k]) && MadeBy(kdf, s.attempts[k], f) && f.pm.payload.ChatMessage?
    ensures n < |s.uses|
    ensures f.pm.payload.body == AeadSeal(s.uses[n].key, Octets(s.uses[n].nonce), [Utf8(text)]) && f.pm.payload.counter == s.uses[n].counter
  {
    var c := f.pm.payload.counter;
    text := s.attempts[k].sent[c - 1];
    assert UsedFor(s, k, c);
    n :| n < |s.uses| && s.uses[n].session == k && s.uses[n].counter == c;
  }

  /** Sessions that accepted each other read each other: every text either has sent opens, under its own number, at the other. */
  lemma {:induction false} PartnersReadEachOther(kdf: NonceKdf, acts: seq<Action>, i: nat, k: nat, c: i64, ts: i64, now: i64)
    requires Mutual(Run(kdf, acts), i, k) && 1 <= c <= |Run(kdf, acts).attempts[k].sent| && FrameIsFresh(ts, now)
    ensures var s := Run(kdf, acts);
            var text := s.attempts[k].sent[c - 1];
            See(kdf, KeysOf(s.attempts[i]), Inbound(ChatFrame(kdf, KeysOf(s.attempts[k]), c, text, ts), now)) ==
            ChatSeen(Chat(c, text, ts))
  {
    RunKeeps(kdf, acts);
    var s := Run(kdf, acts);
    SendMeetsReceive(s, i, k);
    OwnFrameIsSeen(kdf, KeysOf(s.attempts[k]), KeysOf(s.attempts[i]), c, s.attempts[k].sent[c - 1], ts, now);
  }

  /** Attempt `i` has stopped receiving, with these chats delivered. */
  predicate StoppedWith(s: Sys, i: nat, delivered: seq<Chat>) {
    i < |s.attempts| && s.attempts[i].phase.Up? && !s.attempts[i].inbox.running && s.attempts[i].inbox.delivered == delivered
  }

  lemma {:induction false} StoppedStep(kdf: NonceKdf, s: Sys, act: Action, i: nat, delivered: seq<Chat>)
    requires StoppedWith(s, i, delivered)
    ensures StoppedWith(Next(kdf, s, act), i, delivered)
  {
  }

  lemma {:induction false} StoppedForGood(kdf: NonceKdf, acts: seq<Action>, more: seq<Action>, i: nat, delivered: seq<Chat>)
    requires StoppedWith(Run(kdf, acts), i, delivered)
    ensures StoppedWith(Run(kdf, acts + more), i, delivered)
    decreases |more|
  {
    if more == [] {
      assert acts + more == acts;
    } else {
      var m := |more| - 1;
      var before := acts + more[..m];
      StoppedForGood(kdf, acts, more[..m], i, delivered);
      StoppedStep(kdf, Run(kdf, before), more[m], i, delivered);
      RunAppend(kdf, before, more[m]);
      assert before + [more[m]] == acts + more;
    }
  }

  /** Once a session has lost its transport, it never delivers anything again, whatever still arrives. */
  lemma {:induction false} LostIsFinal(kdf: NonceKdf, acts: seq<Action>, i: nat, more: seq<Action>)
    requires i < |Run(kdf, acts).attempts| && Run(kdf, acts).attempts[i].phase.Up?
    ensures StoppedWith(Run(kdf, acts + [TransportLost(i)] + more), i, Run(kdf, acts).attempts[i].inbox.delivered)
  {
    RunAppend(kdf, acts, TransportLost(i));
    StoppedForGood(kdf, acts + [TransportLost(i)], more, i, Run(kdf, acts).attempts[i].inbox.delivered);
  }

  // ---- Sessions do come about ------------------------------------------------------

  /** The ways from a fresh attempt into a handshake. */
  datatype Route = PunchedThrough | PunchFailed | DirectTimedOut

  lemma {:induction false} Then(kdf: NonceKdf, acts: seq<Action>, act: Action) returns (longer: seq<Action>)
    ensures longer == acts + [act] && Run(kdf, longer) == Next(kdf, Run(kdf, acts), act)
  {
    RunAppend(kdf, acts, act);
    longer := acts + [act];
  }

  lemma {:induction false} Routed(kdf: NonceKdf, acts: seq<Action>, i: nat, route: Route) returns (longer: seq<Action>)
    requires i < |Run(kdf, acts).attempts| && Run(kdf, acts).attempts[i].phase.Punching?
    ensures var s := Run(kdf, acts);
            Run(kdf, longer) == Put(s, i, s.attempts[i].(phase := if route.PunchedThrough? then DirectHandshake else RelayHandshake))
  {
    longer := Then(kdf, acts, Punched(i, !route.PunchFailed?));
    if route.DirectTimedOut? {
      longer := Then(kdf, longer, HandshakeTimeout(i));
    }
  }

  /** A fresh attempt of `me` at `peer`, up to its handshake. */
  function Fresh(me: Identity, peer: Identity, eph: PubKey, route: Route): Attempt {
    Attempt(me, peer, eph, if route.PunchedThrough? then DirectHandshake else RelayHandshake, 0, [], true, Start)
  }

  lemma {:induction false} BothHandshake(kdf: NonceKdf, a: Identity, b: Identity, ea: PubKey, eb: PubKey, ra: Route, rb: Route) returns (acts: seq<Action>)
    requires a.x != b.x && ea != eb
    ensures Run(kdf, acts) == Sys([Fresh(a, b, ea, ra), Fresh(b, a, eb, rb)], {}, [])
  {
    acts := Then(kdf, [], Begin(a, b, ea));
    acts := Then(kdf, acts, Begin(b, a, eb));
    acts := Routed(kdf, acts, 0, ra);
    acts := Routed(kdf, acts, 1, rb);
  }

  /** An Init of its peer that is on the network takes a handshaking attempt up. */
  lemma {:induction false} GoesUp(kdf: NonceKdf, acts: seq<Action>, i: nat, e: Secret, now: i64) returns (longer: seq<Action>)
    requires i < |Run(kdf, acts).attempts| && Handshaking(Run(kdf, acts).attempts[i])
    requires InitFrame(Run(kdf, acts).attempts[i].peer, e, now) in Run(kdf, acts).net
    ensures var s := Run(kdf, acts);
            Run(kdf, longer) == Put(s, i, s.attempts[i].(phase := Up(e.pub)))
  {
    var peer := Run(kdf, acts).attempts[i].peer;
    AcceptsExactly(peer, peer, Init(e.pub), now, now);
    longer := Then(kdf, acts, ReceiveInit(i, InitFrame(peer, e, now), now));
  }

  /** A handshaking attempt sends its Init. */
  lemma {:induction false} SaysInit(kdf: NonceKdf, acts: seq<Action>, i: nat, now: i64) returns (longer: seq<Action>)
    requires i < |Run(kdf, acts).attempts| && Handshaking(Run(kdf, acts).attempts[i])
    ensures var s := Run(kdf, acts);
            Run(kdf, longer) == s.(net := s.net + {InitFrame(s.attempts[i].me, Secret(s.attempts[i].eph), now)})
  {
    longer := Then(kdf, acts, SendInit(i, now));
  }

  function UpAttempt(me: Identity, peer: Identity, eph: PubKey, peerEph: PubKey, sent: seq<string>, inbox: Receiving): Attempt {
    Attempt(me, peer, eph, Up(peerEph), |sent|, sent, true, inbox)
  }

  /** By whatever routes, any two people with any two ephemerals can get two sessions facing each other. */
  lemma {:induction false} CanBecomeMutual(kdf: NonceKdf, a: Identity, b: Identity, ea: PubKey, eb: PubKey, ra: Route, rb: Route, now: i64) returns (acts: seq<Action>)
    requires a.x != b.x && ea != eb
    ensures var s := Run(kdf, acts);
            && s.attempts == [UpAttempt(a, b, ea, eb, [], Start), UpAttempt(b, a, eb, ea, [], Start)]
            && Mutual(s, 0, 1)
  {
    acts := BothHandshake(kdf, a, b, ea, eb, ra, rb);
    acts := SaysInit(kdf, acts, 0, now);
    acts := SaysInit(kdf, acts, 1, now);
    acts := GoesUp(kdf, acts, 0, Secret(eb), now);
    acts := GoesUp(kdf, acts, 1, Secret(ea), now);
  }

  /** The chats a receiver has of these texts, numbered from 1. */
  function Chats(texts: seq<string>, now: i64): (cs: seq<Chat>)
    requires |texts| <= I64_MAX
    ensures |cs| == |texts|
  {
    seq(|texts|, k requires 0 <= k < |texts| => Chat(k + 1, texts[k], now))
  }

  /** A receiver that has taken exactly these texts. */
  function TookAll(texts: seq<string>, now: i64): Receiving
    requires |texts| <= I64_MAX
  {
    Receiving(if texts == [] then -1 else |texts|, Chats(texts, now), true)
  }

  lemma {:induction false} TakesTheNext(texts: seq<string>, text: string, now: i64)
    requires |texts| < I64_MAX
    ensures Take(TookAll(texts, now), ChatSeen(Chat(|texts| + 1, text, now))) == TookAll(texts + [text], now)
  {
    assert Chats(texts + [text], now) == Chats(texts, now) + [Chat(|texts| + 1, text, now)];
  }

  /** Attempts 0 and 1 face each other; 0 has sent these texts and 1 has taken them all. */
  ghost predicate Talking(s: Sys, a: Identity, b: Identity, ea: PubKey, eb: PubKey, texts: seq<string>, now: i64) {
    && |texts| <= I64_MAX
    && s.attempts == [UpAttempt(a, b, ea, eb, texts, Start), UpAttempt(b, a, eb, ea, [], TookAll(texts, now))]
  }

  /** One more text, sent and received. */
  lemma {:induction false} OneMoreText(kdf: NonceKdf, acts: seq<Action>, a: Identity, b: Identity, ea: PubKey, eb: PubKey, texts: seq<string>, text: string, now: i64) returns (longer: seq<Action>)
    requires a.x != b.x && Talking(Run(kdf, acts), a, b, ea, eb, texts, now) && |texts| < I64_MAX
    ensures Talking(Run(kdf, longer), a, b, ea, eb, texts + [text], now)
  {
    var o := Text(text, now, true);
    longer := Then(kdf, acts, SendText(0, text, now, true));
    SendActionMoves(kdf, Run(kdf, acts), 0, o);
    var sent := Run(kdf, longer);
    var f := FrameFor(kdf, SessionKeys(a, b, Secret(ea), eb), |texts|, o);
    longer := Then(kdf, longer, ReceiveFrame(1, f, now));
    ReceiveMoves(kdf, sent, 1, f, now);
    KeysCross(a, b, Secret(ea), Secret(eb));
    FrameMeans(kdf, SessionKeys(a, b, Secret(ea), eb), SessionKeys(b, a, Secret(eb), ea), |texts|, o, now);
    TakesTheNext(texts, text, now);
  }

  /** Receiving a frame that is on the network. */
  lemma {:induction false} ReceiveMoves(kdf: NonceKdf, s: Sys, i: nat, f: Frame, now: i64)
    requires i < |s.attempts| && s.attempts[i].phase.Up? && f in s.net
    ensures var a := s.attempts[i];
            Next(kdf, s, ReceiveFrame(i, f, now)) == Put(s, i, a.(inbox := Take(a.inbox, See(kdf, KeysOf(a), Inbound(f, now)))))
  {
  }

  /**
    Sessions come about and carry: for any two people, any two ephemerals, any
    routes through punch, direct and relay handshake, and any texts a counter can
    number, there is a run after which the two attempts face each other and the
    second has delivered exactly those texts, numbered from 1, in order.
   */
  lemma {:induction false} TextsCanArrive(kdf: NonceKdf, a: Identity, b: Identity, ea: PubKey, eb: PubKey, ra: Route, rb: Route, texts: seq<string>, now: i64) returns (acts: seq<Action>)
    requires a.x != b.x && ea != eb && |texts| <= I64_MAX
    ensures var s := Run(kdf, acts);
            && Mutual(s, 0, 1) && s.attempts[0].me == a && s.attempts[1].me == b
            && s.attempts[0].sent == texts && s.attempts[1].inbox.delivered == Chats(texts, now)
    ensures Talking(Run(kdf, acts), a, b, ea, eb, texts, now)
    decreases |texts|
  {
    if texts == [] {
      acts := CanBecomeMutual(kdf, a, b, ea, eb, ra, rb, now);
      assert Chats([], now) == [];
    } else {
      var m := |texts| - 1;
      acts := TextsCanArrive(kdf, a, b, ea, eb, ra, rb, texts[..m], now);
      acts := OneMoreText(kdf, acts, a, b, ea, eb, texts[..m], texts[m], now);
      assert texts[..m] + [texts[m]] == texts;
    }
  }

  /** And they end: once the first closes, its End stops the second, which keeps what it has delivered. */
  lemma {:induction false} SessionCanEnd(kdf: NonceKdf, acts: seq<Action>, a: Identity, b: Identity, ea: PubKey, eb: PubKey, texts: seq<string>, now: i64) returns (longer: seq<Action>)
    requires a.x != b.x && Talking(Run(kdf, acts), a, b, ea, eb, texts, now)
    ensures var s := Run(kdf, longer);
            && |s.attempts| == 2 && !s.attempts[0].sending
            && s.attempts[1].inbox == TookAll(texts, now).(running := false)
  {
    var o := OutboundClosed(now, true);
    longer := Then(kdf, acts, CloseOutbound(0, now, true));
    SendActionMoves(kdf, Run(kdf, acts), 0, o);
    var sent := Run(kdf, longer);
    var f := FrameFor(kdf, SessionKeys(a, b, Secret(ea), eb), |texts|, o);
    longer := Then(kdf, longer, ReceiveFrame(1, f, now));
    ReceiveMoves(kdf, sent, 1, f, now);
    KeysCross(a, b, Secret(ea), Secret(eb));
    FrameMeans(kdf, SessionKeys(a, b, Secret(ea), eb), SessionKeys(b, a, Secret(eb), ea), |texts|, o, now);
  }
}
