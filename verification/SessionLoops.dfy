/**
  The two loops a session runs (crates/p2p `start_session`): the sender numbers
  and seals outgoing texts, the receiver keeps a high-water counter and turns
  frames into events.
 */
module SessionLoops {
  import opened Common
  import opened Bytes
  import opened Crypto
  import opened PeerFrame
  import opened HighWater

  /** What one end of a session knows: who it is, who the peer is, both directional keys. */
  datatype Keys = Keys(me: Identity, peer: Identity, send: Key, recv: Key)

  /** `am_i_first`: the larger static key goes first. */
  predicate AmIFirst(mine: PubKey, theirs: PubKey) {
    LexLess(theirs, mine)
  }

  /** Of two different static keys exactly one goes first. */
  lemma {:induction false} ExactlyOneIsFirst(a: PubKey, b: PubKey)
    requires a != b
    ensures AmIFirst(a, b) <==> !AmIFirst(b, a)
  {
    LexTotal(a, b);
  }

  function SendInfo(first: bool): string {
    if first then "a2b" else "b2a"
  }

  function RecvInfo(first: bool): string {
    if first then "b2a" else "a2b"
  }

  /** How a session splits the key its handshake returned. */
  function SplitKey(me: Identity, peer: Identity, k: Key): Keys {
    var first := AmIFirst(me.x, peer.x);
    Keys(me, peer, DeriveDirectionalKey(k, SendInfo(first)), DeriveDirectionalKey(k, RecvInfo(first)))
  }

  function SessionKeys(me: Identity, peer: Identity, eph: Secret, peerEph: PubKey): Keys {
    SplitKey(me, peer, DeriveSessionKey(eph, peerEph))
  }

  /** The side whose static key is larger at the first byte where they differ sends under "a2b" and hears under "b2a"; the other the reverse. */
  lemma {:induction false} LargerSendsA2b(a: Identity, b: Identity, k: Key, n: nat)
    requires n < 32 && a.x[..n] == b.x[..n] && a.x[n] > b.x[n]
    ensures SplitKey(a, b, k) == Keys(a, b, Expand(k, "a2b"), Expand(k, "b2a"))
    ensures SplitKey(b, a, k) == Keys(b, a, Expand(k, "b2a"), Expand(k, "a2b"))
  {
    LexFirstDifference(b.x, a.x, n);
  }

  /** Two ends that accepted each other's ephemerals hold crossed keys. */
  lemma {:induction false} KeysCross(a: Identity, b: Identity, ea: Secret, eb: Secret)
    requires a.x != b.x
    ensures var ka := SessionKeys(a, b, ea, eb.pub);
            var kb := SessionKeys(b, a, eb, ea.pub);
            ka.send == kb.recv && ka.recv == kb.send && ka.send != ka.recv
  {
    ExactlyOneIsFirst(a.x, b.x);
    UnorderedPairs(ea.pub, eb.pub, eb.pub, ea.pub);
  }

  // ---- Receiver -------------------------------------------------------------

  datatype SessionEvent = Delivered(text: string, timestamp: i64) | Closed

  /** One received frame together with the clock reading at its handling. */
  datatype Inbound = Inbound(frame: Frame, now: i64)

  datatype Handled = Handled(last: int, delivered: Option<Chat>, goOn: bool)

  /** `handle_inbound_frame`, branch by branch. */
  function HandleInboundFrame(kdf: NonceKdf, keys: Keys, last: int, i: Inbound): Handled {
    if !i.frame.Decoded? then Handled(last, None, true)
    else if !Verify(i.frame.pm, keys.peer) then Handled(last, None, true)
    else if !FrameIsFresh(i.frame.pm.timestamp, i.now) then Handled(last, None, true)
    else match i.frame.pm.payload
         case ChatMessage(counter, body) =>
           if counter <= last then Handled(last, None, true)
           else (match DecryptMessageFromChat(kdf, body, keys.recv, AsU64(counter))
                 case Ok(text) => Handled(counter, Some(Chat(counter, text, i.frame.pm.timestamp)), true)
                 case Err(_) => Handled(last, None, true))
         case End => Handled(last, None, false)
         case _ => Handled(last, None, true)
  }

  /** What the frame amounts to for this receiver, whatever came before it. */
  function See(kdf: NonceKdf, keys: Keys, i: Inbound): Seen {
    if !(Authentic(i.frame, keys.peer) && FrameIsFresh(i.frame.pm.timestamp, i.now)) then Nothing
    else match i.frame.pm.payload
         case ChatMessage(counter, body) =>
           (match DecryptMessageFromChat(kdf, body, keys.recv, AsU64(counter))
            case Ok(text) => ChatSeen(Chat(counter, text, i.frame.pm.timestamp))
            case Err(_) => Nothing)
         case End => EndSeen
         case _ => Nothing
  }

  function SeeAll(kdf: NonceKdf, keys: Keys, input: seq<Inbound>): (seen: seq<Seen>)
    ensures |seen| == |input|
    ensures forall i :: 0 <= i < |input| ==> seen[i] == See(kdf, keys, input[i])
  {
    seq(|input|, i requires 0 <= i < |input| => See(kdf, keys, input[i]))
  }

  lemma {:induction false} SeeAllAppend(kdf: NonceKdf, keys: Keys, input: seq<Inbound>, i: Inbound)
    ensures SeeAll(kdf, keys, input + [i]) == SeeAll(kdf, keys, input) + [See(kdf, keys, i)]
  {
  }

  lemma {:induction false} SeeAllConcat(kdf: NonceKdf, keys: Keys, input: seq<Inbound>, more: seq<Inbound>)
    ensures SeeAll(kdf, keys, input + more) == SeeAll(kdf, keys, input) + SeeAll(kdf, keys, more)
  {
  }

  /** Checking the counter before decrypting is no different from filtering what opened. */
  lemma {:induction false} HandlingIsTaking(kdf: NonceKdf, keys: Keys, r: Receiving, i: Inbound)
    requires r.running
    ensures var h := HandleInboundFrame(kdf, keys, r.last, i);
            Take(r, See(kdf, keys, i)) ==
            Receiving(h.last, if h.delivered.Some? then r.delivered + [h.delivered.value] else r.delivered, h.goOn)
  {
  }

  /** A frame the handler rejects, or that finds the loop stopped, could as well not have arrived. */
  lemma {:induction false} DroppingRejectedFrame(kdf: NonceKdf, keys: Keys, before: seq<Inbound>, i: Inbound, after: seq<Inbound>)
    requires var r := TakeAll(SeeAll(kdf, keys, before));
             var h := HandleInboundFrame(kdf, keys, r.last, i);
             !r.running || (h.delivered.None? && h.goOn)
    ensures TakeAll(SeeAll(kdf, keys, before + [i] + after)) == TakeAll(SeeAll(kdf, keys, before + after))
  {
    var seen, s, rest := SeeAll(kdf, keys, before), See(kdf, keys, i), SeeAll(kdf, keys, after);
    if TakeAll(seen).running {
      HandlingIsTaking(kdf, keys, TakeAll(seen), i);
      RejectedKeepsLast(kdf, keys, TakeAll(seen).last, i);
    }
    SeeAllAppend(kdf, keys, before, i);
    SeeAllConcat(kdf, keys, before + [i], after);
    SeeAllConcat(kdf, keys, before, after);
    DroppingIdle(seen, s, rest);
  }

  lemma {:induction false} RejectedKeepsLast(kdf: NonceKdf, keys: Keys, last: int, i: Inbound)
    requires HandleInboundFrame(kdf, keys, last, i).delivered.None?
    ensures HandleInboundFrame(kdf, keys, last, i).last == last
  {
  }

  /** One message for each record, in order, and then exactly one Closed. */
  ghost predicate IsEventStream(seen: seq<Seen>, events: seq<SessionEvent>) {
    events == Messages(Records(seen, |seen|)) + [Closed]
  }

  /** The receive loop as the source runs it; it ends on End, or when the transport does. */
  method ReceiverLoop(kdf: NonceKdf, keys: Keys, input: seq<Inbound>) returns (events: seq<SessionEvent>)
    ensures IsEventStream(SeeAll(kdf, keys, input), events)
  {
    var lastCounter := -1;
    events := [];
    ghost var seen := SeeAll(kdf, keys, input);
    ghost var delivered := [];
    var n, goOn := 0, true;
    while n < |input| && goOn
      invariant n <= |input|
      invariant TakeAll(seen[..n]) == Receiving(lastCounter, delivered, goOn)
      invariant events == Messages(delivered)
    {
      var h := HandleInboundFrame(kdf, keys, lastCounter, input[n]);
      HandlingIsTaking(kdf, keys, Receiving(lastCounter, delivered, true), input[n]);
      assert seen[..n + 1][..n] == seen[..n];
      lastCounter := h.last;
      if h.delivered.Some? {
        MessagesAppend(delivered, h.delivered.value);
        delivered := delivered + [h.delivered.value];
        events := events + [Delivered(h.delivered.value.text, h.delivered.value.timestamp)];
      }
      n := n + 1;
      goOn := h.goOn;
    }
    StaysStopped(seen, n);
    DeliversExactlyRecords(seen);
    events := events + [Closed];
  }

  function Messages(cs: seq<Chat>): (es: seq<SessionEvent>)
    ensures |es| == |cs|
    ensures forall i :: 0 <= i < |cs| ==> es[i] == Delivered(cs[i].text, cs[i].timestamp)
  {
    seq(|cs|, i requires 0 <= i < |cs| => Delivered(cs[i].text, cs[i].timestamp))
  }

  lemma {:induction false} MessagesAppend(cs: seq<Chat>, c: Chat)
    ensures Messages(cs + [c]) == Messages(cs) + [Delivered(c.text, c.timestamp)]
  {
  }

  // ---- Sender ---------------------------------------------------------------

  /** What wakes the sender; `ok` says whether the transport then takes the frame. */
  datatype Outgoing =
    | Text(text: string, now: i64, ok: bool)
    | OutboundClosed(now: i64, ok: bool)
    | HeartbeatDue(now: i64, ok: bool)

  datatype Sending = Sending(counter: int, frames: seq<Frame>, running: bool)

  const NothingSent: Sending := Sending(0, [], true)

  /** The frame for the `counter`-th text. */
  function ChatFrame(kdf: NonceKdf, keys: Keys, counter: i64, text: string, now: i64): Frame {
    Decoded(NewMessage(ChatMessage(counter, EncryptMessageForChat(kdf, text, keys.send, AsU64(counter))), keys.me, now))
  }

  /** The frame a wake-up gives rise to. */
  function FrameFor(kdf: NonceKdf, keys: Keys, counter: int, o: Outgoing): Frame
    requires 0 <= counter <= I64_MAX && (o.Text? ==> counter < I64_MAX)
  {
    match o
    case Text(text, now, _) => ChatFrame(kdf, keys, counter + 1, text, now)
    case OutboundClosed(now, _) => Decoded(NewMessage(End, keys.me, now))
    case HeartbeatDue(now, _) => Decoded(NewMessage(HeartBeat, keys.me, now))
  }

  /** The far end of a session: receives under the key `a` sends under, and takes `a` for its peer. */
  predicate Hears(b: Keys, a: Keys) {
    b.recv == a.send && b.peer == a.me
  }

  /** What a wake-up is to the far end: its text under the counter then reached, the end, or nothing. */
  function Meaning(o: Outgoing, counter: i64): Seen {
    match o
    case Text(text, now, _) => ChatSeen(Chat(counter, text, now))
    case OutboundClosed(_, _) => EndSeen
    case HeartbeatDue(_, _) => Nothing
  }

  /** Read in time at the far end, an outgoing frame is seen as what it means. */
  lemma {:induction false} FrameMeans(kdf: NonceKdf, a: Keys, b: Keys, counter: int, o: Outgoing, now: i64)
    requires 0 <= counter <= I64_MAX && (o.Text? ==> counter < I64_MAX)
    requires Hears(b, a) && FrameIsFresh(o.now, now)
    ensures See(kdf, b, Inbound(FrameFor(kdf, a, counter, o), now)) == Meaning(o, if o.Text? then counter + 1 else counter)
  {
    match o
    case Text(text, ts, _) => OwnFrameIsSeen(kdf, a, b, counter + 1, text, ts, now);
    case OutboundClosed(ts, _) => VerifyExactly(End, a.me, ts, b.peer);
    case HeartbeatDue(_, _) =>
  }

  function Emit(s: Sending, counter: int, f: Frame, ok: bool, goOn: bool): Sending {
    Sending(counter, if ok then s.frames + [f] else s.frames, goOn && ok)
  }

  /** One turn of the send loop. The 64-bit counter running out stops the task. */
  function SendStep(kdf: NonceKdf, keys: Keys, s: Sending, o: Outgoing): Sending
    requires 0 <= s.counter <= I64_MAX
  {
    if !s.running then s else
    match o
    case Text(text, now, ok) =>
      if s.counter == I64_MAX then s.(running := false)
      else Emit(s, s.counter + 1, ChatFrame(kdf, keys, s.counter + 1, text, now), ok, true)
    case OutboundClosed(now, ok) => Emit(s, s.counter, Decoded(NewMessage(End, keys.me, now)), ok, false)
    case HeartbeatDue(now, ok) => Emit(s, s.counter, Decoded(NewMessage(HeartBeat, keys.me, now)), ok, true)
  }

  function Send(kdf: NonceKdf, keys: Keys, input: seq<Outgoing>): (s: Sending)
    ensures 0 <= s.counter <= I64_MAX
  {
    if input == [] then NothingSent
    else SendStep(kdf, keys, Send(kdf, keys, input[..|input| - 1]), input[|input| - 1])
  }

  /** One wake-up of the send task: what goes out, and whether the loop goes on. */
  method SendTurn(kdf: NonceKdf, keys: Keys, counter: int, o: Outgoing) returns (counter': int, out: Option<Frame>, goOn: bool)
    requires 0 <= counter <= I64_MAX
    ensures 0 <= counter' <= I64_MAX
    ensures forall frames :: SendStep(kdf, keys, Sending(counter, frames, true), o) ==
              Sending(counter', if out.Some? then frames + [out.value] else frames, goOn)
    ensures out.Some? ==> forall b: Keys, now: i64 :: Hears(b, keys) && FrameIsFresh(o.now, now) ==>
              See(kdf, b, Inbound(out.value, now)) == Meaning(o, counter')
  {
    forall b: Keys, now: i64 | Hears(b, keys) && FrameIsFresh(o.now, now) && (o.Text? ==> counter < I64_MAX)
      ensures See(kdf, b, Inbound(FrameFor(kdf, keys, counter, o), now)) == Meaning(o, if o.Text? then counter + 1 else counter)
    {
      FrameMeans(kdf, keys, b, counter, o, now);
    }
    counter', out := counter, None;
    match o {
      case Text(text, now, ok) =>
        if counter == I64_MAX {
          return counter, None, false;
        }
        counter' := counter + 1;
        if ok {
          out := Some(ChatFrame(kdf, keys, counter', text, now));
        }
        goOn := ok;
      case OutboundClosed(now, ok) =>
        if ok {
          out := Some(Decoded(NewMessage(End, keys.me, now)));
        }
        goOn := false;
      case HeartbeatDue(now, ok) =>
        if ok {
          out := Some(Decoded(NewMessage(HeartBeat, keys.me, now)));
        }
        goOn := ok;
    }
  }

  /** The send loop as the source runs it. */
  method SenderLoop(kdf: NonceKdf, keys: Keys, input: seq<Outgoing>) returns (frames: seq<Frame>)
    ensures frames == Send(kdf, keys, input).frames
  {
    var counter, n, goOn := 0, 0, true;
    frames := [];
    while n < |input| && goOn
      invariant n <= |input| && 0 <= counter <= I64_MAX
      invariant Send(kdf, keys, input[..n]) == Sending(counter, frames, goOn)
    {
      SendAppend(kdf, keys, input[..n], input[n]);
      assert input[..n + 1] == input[..n] + [input[n]];
      var out;
      counter, out, goOn := SendTurn(kdf, keys, counter, input[n]);
      if out.Some? {
        frames := frames + [out.value];
      }
      n := n + 1;
    }
    SendStopped(kdf, keys, input, n);
  }

  lemma {:induction false} SendAppend(kdf: NonceKdf, keys: Keys, input: seq<Outgoing>, o: Outgoing)
    ensures Send(kdf, keys, input + [o]) == SendStep(kdf, keys, Send(kdf, keys, input), o)
  {
    assert (input + [o])[..|input|] == input;
  }

  lemma {:induction false} SendStopped(kdf: NonceKdf, keys: Keys, input: seq<Outgoing>, n: nat)
    requires n <= |input|
    requires n < |input| ==> !Send(kdf, keys, input[..n]).running
    ensures Send(kdf, keys, input) == Send(kdf, keys, input[..n])
    decreases |input|
  {
    if n == |input| {
      assert input[..n] == input;
    } else {
      var m := |input| - 1;
      assert input[..m][..n] == input[..n];
      SendStopped(kdf, keys, input[..m], n);
      assert input[..m] + [input[m]] == input;
      SendAppend(kdf, keys, input[..m], input[m]);
    }
  }

  // ---- Sender into receiver -------------------------------------------------

  /** Whether the send loop is still going: nothing failed, the channel is open, the counter not exhausted. */
  predicate StillSending(input: seq<Outgoing>) {
    input == [] ||
    var pre, o := input[..|input| - 1], input[|input| - 1];
    StillSending(pre) && o.ok && !o.OutboundClosed? && (o.Text? ==> |TextsOut(pre)| < I64_MAX)
  }

  /** The texts that leave: those handed in while the loop is going and taken by the transport. */
  function TextsOut(input: seq<Outgoing>): seq<string> {
    if input == [] then [] else
    var pre, o := input[..|input| - 1], input[|input| - 1];
    TextsOut(pre) + if o.Text? && o.ok && StillSending(pre) && |TextsOut(pre)| < I64_MAX then [o.text] else []
  }

  /** The channel was closed while the loop was going, and the transport took the End. */
  predicate EndOut(input: seq<Outgoing>) {
    input != [] &&
    var pre, o := input[..|input| - 1], input[|input| - 1];
    EndOut(pre) || (StillSending(pre) && o.OutboundClosed? && o.ok)
  }

  /** The frames of a session, each read at its own clock reading. */
  function Arriving(frames: seq<Frame>, clock: seq<i64>): (input: seq<Inbound>)
    requires |clock| >= |frames|
    ensures |input| == |frames|
  {
    seq(|frames|, i requires 0 <= i < |frames| => Inbound(frames[i], clock[i]))
  }

  ghost predicate AllFresh(input: seq<Inbound>) {
    forall i :: 0 <= i < |input| && input[i].frame.Decoded? ==> FrameIsFresh(input[i].frame.pm.timestamp, input[i].now)
  }

  /** A chat frame of the peer's session, read in time over crossed keys, is seen as itself. */
  lemma {:induction false} OwnFrameIsSeen(kdf: NonceKdf, a: Keys, b: Keys, counter: i64, text: string, ts: i64, now: i64)
    requires Hears(b, a) && FrameIsFresh(ts, now)
    ensures See(kdf, b, Inbound(ChatFrame(kdf, a, counter, text, ts), now)) == ChatSeen(Chat(counter, text, ts))
  {
    ChatOpensExactly(kdf, text, a.send, AsU64(counter), b.recv, AsU64(counter));
    VerifyExactly(ChatMessage(counter, EncryptMessageForChat(kdf, text, a.send, AsU64(counter))), a.me, ts, b.peer);
  }

  /** The receiver keeps up with the sender: everything out has been delivered, and it stops exactly at an End. */
  ghost predicate KeepsUp(s: Sending, r: Receiving, input: seq<Outgoing>) {
    && s.running == StillSending(input)
    && (s.running ==> s.counter == |TextsOut(input)| && r.last == if s.counter == 0 then -1 else s.counter)
    && Texts(r.delivered) == TextsOut(input)
    && r.running == !EndOut(input)
  }

  /** A wake-up that puts a frame out. */
  predicate Emits(s: Sending, o: Outgoing) {
    s.running && o.ok && (o.Text? ==> s.counter < I64_MAX)
  }

  lemma {:induction false} EmitsFrame(kdf: NonceKdf, a: Keys, s: Sending, o: Outgoing)
    requires 0 <= s.counter <= I64_MAX
    ensures var s' := SendStep(kdf, a, s, o);
            if Emits(s, o) then
              s' == Sending(if o.Text? then s.counter + 1 else s.counter, s.frames + [FrameFor(kdf, a, s.counter, o)], !o.OutboundClosed?)
            else s'.frames == s.frames && !s'.running
  {
  }

  lemma {:induction false} EndedIsStopped(input: seq<Outgoing>)
    ensures EndOut(input) ==> !StillSending(input)
    decreases |input|
  {
    if input != [] {
      EndedIsStopped(input[..|input| - 1]);
    }
  }

  /** A wake-up that puts nothing out changes nothing for the receiver. */
  lemma {:induction false} SilentTurn(kdf: NonceKdf, a: Keys, s: Sending, r: Receiving, input: seq<Outgoing>, o: Outgoing)
    requires 0 <= s.counter <= I64_MAX && KeepsUp(s, r, input) && !Emits(s, o)
    ensures KeepsUp(SendStep(kdf, a, s, o), r, input + [o])
  {
    EmitsFrame(kdf, a, s, o);
    assert (input + [o])[..|input|] == input;
  }

  /** One that does is taken for what it means. */
  lemma {:induction false} EmittingTurn(kdf: NonceKdf, a: Keys, s: Sending, r: Receiving, input: seq<Outgoing>, o: Outgoing)
    requires 0 <= s.counter <= I64_MAX && KeepsUp(s, r, input) && Emits(s, o)
    ensures var c := if o.Text? then s.counter + 1 else s.counter;
            KeepsUp(SendStep(kdf, a, s, o), Take(r, Meaning(o, c)), input + [o])
  {
    EmitsFrame(kdf, a, s, o);
    EndedIsStopped(input);
    assert (input + [o])[..|input|] == input;
    if o.Text? {
      TextsAppend(r.delivered, Chat(s.counter + 1, o.text, o.now));
    }
  }

  lemma {:induction false} ArrivingAppend(frames: seq<Frame>, f: Frame, clock: seq<i64>)
    requires |clock| > |frames|
    ensures Arriving(frames + [f], clock) == Arriving(frames, clock) + [Inbound(f, clock[|frames|])]
  {
  }

  /** A frame more, as the receiver takes it. */
  lemma {:induction false} ReceivedOneMore(kdf: NonceKdf, b: Keys, frames: seq<Frame>, f: Frame, clock: seq<i64>)
    requires |clock| > |frames|
    ensures Received(kdf, b, frames + [f], clock) == Take(Received(kdf, b, frames, clock), See(kdf, b, Inbound(f, clock[|frames|])))
  {
    var early, i := Arriving(frames, clock), Inbound(f, clock[|frames|]);
    ArrivingAppend(frames, f, clock);
    SeeAllAppend(kdf, b, early, i);
    var seen := SeeAll(kdf, b, early);
    assert (seen + [See(kdf, b, i)])[..|seen|] == seen;
  }

  /** The receiver after these frames. */
  function Received(kdf: NonceKdf, b: Keys, frames: seq<Frame>, clock: seq<i64>): Receiving
    requires |clock| >= |frames|
  {
    TakeAll(SeeAll(kdf, b, Arriving(frames, clock)))
  }

  lemma {:induction false} FreshPrefix(frames: seq<Frame>, f: Frame, clock: seq<i64>)
    requires |clock| > |frames| && AllFresh(Arriving(frames + [f], clock))
    ensures AllFresh(Arriving(frames, clock))
    ensures f.Decoded? ==> FrameIsFresh(f.pm.timestamp, clock[|frames|])
  {
    ArrivingAppend(frames, f, clock);
    var early, late := Arriving(frames, clock), Arriving(frames + [f], clock);
    assert late[|frames|] == Inbound(f, clock[|frames|]);
    assert forall i :: 0 <= i < |frames| ==> early[i] == late[i];
  }

  /**
    Sender into receiver over crossed keys, whatever wakes the sender: a transport
    that keeps every frame it took in order and in time makes the receiver deliver
    exactly the texts that left, and stop exactly if an End did.
   */
  lemma {:induction false} SessionEndToEnd(kdf: NonceKdf, a: Keys, b: Keys, input: seq<Outgoing>, clock: seq<i64>)
    requires Hears(b, a)
    requires |clock| >= |Send(kdf, a, input).frames| && AllFresh(Arriving(Send(kdf, a, input).frames, clock))
    ensures KeepsUp(Send(kdf, a, input), Received(kdf, b, Send(kdf, a, input).frames, clock), input)
    decreases |input|
  {
    if input != [] {
      var m := |input| - 1;
      var pre, o := input[..m], input[m];
      assert pre + [o] == input;
      var s := Send(kdf, a, pre);
      EmitsFrame(kdf, a, s, o);
      if Emits(s, o) {
        var f := FrameFor(kdf, a, s.counter, o);
        FreshPrefix(s.frames, f, clock);
        SessionEndToEnd(kdf, a, b, pre, clock);
        FrameMeans(kdf, a, b, s.counter, o, clock[|s.frames|]);
        ReceivedOneMore(kdf, b, s.frames, f, clock);
        EmittingTurn(kdf, a, s, Received(kdf, b, s.frames, clock), pre, o);
      } else {
        SessionEndToEnd(kdf, a, b, pre, clock);
        SilentTurn(kdf, a, s, Received(kdf, b, s.frames, clock), pre, o);
      }
    }
  }

  function TextsOf(input: seq<Outgoing>): seq<string> {
    if input == [] then []
    else TextsOf(input[..|input| - 1]) + if input[|input| - 1].Text? then [input[|input| - 1].text] else []
  }

  /** A healthy sender: nothing fails, and closing the channel comes last if at all. */
  ghost predicate Healthy(input: seq<Outgoing>) {
    |input| <= I64_MAX && forall i :: 0 <= i < |input| ==> input[i].ok && (input[i].OutboundClosed? ==> i == |input| - 1)
  }

  lemma {:induction false} HealthySendsAll(input: seq<Outgoing>)
    requires Healthy(input)
    ensures TextsOut(input) == TextsOf(input) && |TextsOf(input)| <= |input|
    ensures StillSending(input) <==> input == [] || !input[|input| - 1].OutboundClosed?
    decreases |input|
  {
    if input != [] {
      HealthySendsAll(input[..|input| - 1]);
    }
  }

  /** From a healthy sender the receive loop reports every text handed in, in order, and then closes. */
  lemma {:induction false} HealthySessionDeliversAll(kdf: NonceKdf, a: Keys, b: Keys, input: seq<Outgoing>, clock: seq<i64>, events: seq<SessionEvent>)
    requires Hears(b, a) && Healthy(input)
    requires |clock| >= |Send(kdf, a, input).frames| && AllFresh(Arriving(Send(kdf, a, input).frames, clock))
    requires IsEventStream(SeeAll(kdf, b, Arriving(Send(kdf, a, input).frames, clock)), events)
    ensures |events| == |TextsOf(input)| + 1 && events[|TextsOf(input)|] == Closed
    ensures forall i :: 0 <= i < |TextsOf(input)| ==> events[i].Delivered? && events[i].text == TextsOf(input)[i]
  {
    SessionEndToEnd(kdf, a, b, input, clock);
    HealthySendsAll(input);
    DeliversExactlyRecords(SeeAll(kdf, b, Arriving(Send(kdf, a, input).frames, clock)));
  }

  // ---- A transport that repeats and mixes in junk ------------------------------------

  /** A frame that says nothing to `b`: not its peer's, out of time, or neither chat nor End. */
  predicate SaysNothing(b: Keys, i: Inbound) {
    || !Authentic(i.frame, b.peer)
    || !FrameIsFresh(i.frame.pm.timestamp, i.now)
    || (!i.frame.pm.payload.ChatMessage? && !i.frame.pm.payload.End?)
  }

  /** A copy, in time, of the frame for the `c`-th text. */
  predicate IsCopy(kdf: NonceKdf, a: Keys, texts: seq<string>, c: nat, i: Inbound) {
    && 1 <= c <= |texts| && c <= I64_MAX
    && i.frame.Decoded? && i.frame == ChatFrame(kdf, a, c, texts[c - 1], i.frame.pm.timestamp)
    && FrameIsFresh(i.frame.pm.timestamp, i.now)
  }

  /** The highest text number among the first `n` arrivals, given which copy each of them is (0 for none). */
  function HighestCopy(copies: seq<nat>, n: nat): nat
    requires n <= |copies|
  {
    if n == 0 then 0 else
    var h := HighestCopy(copies, n - 1);
    if copies[n - 1] > h then copies[n - 1] else h
  }

  /** Not more than one above all copies before it. */
  predicate NextOrRepeat(copies: seq<nat>, i: nat)
    requires i < |copies|
  {
    copies[i] <= HighestCopy(copies, i) + 1
  }

  /** Every arrival is junk, a repeat, or the very next text. */
  ghost predicate LossFree(kdf: NonceKdf, a: Keys, b: Keys, texts: seq<string>, input: seq<Inbound>, copies: seq<nat>) {
    && |copies| == |input|
    && (forall i :: 0 <= i < |input| ==> if copies[i] == 0 then SaysNothing(b, input[i]) else IsCopy(kdf, a, texts, copies[i], input[i]))
    && (forall i :: 0 <= i < |input| ==> NextOrRepeat(copies, i))
  }

  /** Seen as the `c`-th text, or as nothing for 0. */
  predicate SeenAs(texts: seq<string>, s: Seen, c: nat) {
    if c == 0 then s == Nothing else c <= |texts| && s.ChatSeen? && s.chat.counter == c && s.chat.text == texts[c - 1]
  }

  lemma {:induction false} ArrivalIsSeen(kdf: NonceKdf, a: Keys, b: Keys, texts: seq<string>, c: nat, i: Inbound)
    requires Hears(b, a)
    requires if c == 0 then SaysNothing(b, i) else IsCopy(kdf, a, texts, c, i)
    ensures SeenAs(texts, See(kdf, b, i), c)
  {
    if c > 0 {
      OwnFrameIsSeen(kdf, a, b, c, texts[c - 1], i.frame.pm.timestamp, i.now);
    }
  }

  lemma {:induction false} CopiesAreInOrder(texts: seq<string>, seen: seq<Seen>, copies: seq<nat>, n: nat)
    requires |copies| == |seen| && n <= |seen|
    requires forall i :: 0 <= i < |seen| ==> SeenAs(texts, seen[i], copies[i])
    requires forall i :: 0 <= i < |seen| ==> NextOrRepeat(copies, i)
    ensures Highest(seen, n) == HighestCopy(copies, n)
    ensures forall i :: 0 <= i < n ==> InOrderAt(texts, seen, i)
    decreases n
  {
    if n > 0 {
      CopiesAreInOrder(texts, seen, copies, n - 1);
      assert SeenAs(texts, seen[n - 1], copies[n - 1]) && NextOrRepeat(copies, n - 1);
    }
  }

  /**
    Frames that come in order without loss, repeated freely and mixed with anything
    that says nothing: every text up to the highest that came is delivered, once.
   */
  lemma {:induction false} LossFreeDeliversAll(kdf: NonceKdf, a: Keys, b: Keys, texts: seq<string>, input: seq<Inbound>, copies: seq<nat>)
    requires Hears(b, a) && LossFree(kdf, a, b, texts, input, copies)
    ensures var r := TakeAll(SeeAll(kdf, b, input));
            && r.running && HighestCopy(copies, |input|) <= |texts|
            && Texts(r.delivered) == texts[..HighestCopy(copies, |input|)]
  {
    var seen := SeeAll(kdf, b, input);
    forall i | 0 <= i < |seen| ensures SeenAs(texts, seen[i], copies[i]) {
      ArrivalIsSeen(kdf, a, b, texts, copies[i], input[i]);
    }
    CopiesAreInOrder(texts, seen, copies, |seen|);
    assert seen[..|seen|] == seen;
    InOrderStreamDeliversAll(texts, seen, |seen|);
  }
}
