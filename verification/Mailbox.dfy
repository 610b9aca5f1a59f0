/**
  The offline mailbox (crates/serverclient): generating blobs, opening and
  handling them, and draining pending blobs with one acknowledgement each.
 */
module Mailbox {
  import opened Common
  import opened Bytes
  import opened Crypto
  import opened OrderedDb
  import opened ChatStore

  const MAX_BLOB_AGE_SECS: int := 86400 * 30

  datatype BlobError =
    | ReplayDetected | PeerLoadFailed | UnknownPeer | InvalidSignature
    | DecryptionFailed | InvalidMessageFormat | DeserializationFailed | ChatStorageFailed

  /** The peers on disk and one chat store per peer; an absent store is empty. */
  datatype Disk = Disk(known: map<Hash, Identity>, chats: map<Hash, Store>)

  function ChatOf(d: Disk, h: Hash): Store {
    if h in d.chats then d.chats[h] else []
  }

  function LoadPeerData(d: Disk, h: Hash): Option<Identity> {
    if h in d.known then Some(d.known[h]) else None
  }

  // ---- Generating --------------------------------------------------------------------

  function OfflineSigned(ciphertext: Data, timestamp: i64): Data {
    Ascii("offline") + ciphertext + Octets(LE64(timestamp))
  }

  function PurgeSigned(timestamp: i64): Data {
    Ascii("purge") + Octets(LE64(timestamp))
  }

  /** The randomness a generator draws: the storage nonce, the envelope's ephemeral and nonce. */
  datatype Coins = Coins(stored: Nonce, eph: Secret, blob: Nonce)

  function OfflinePayload(recipient: Identity, me: Identity, mine: Secret, text: string, timestamp: i64, stored: Nonce): BlobPayload {
    var storageKey := LoadStorageKey(recipient.x, mine);
    var cipher := EncryptMessageStored(Message(You, text, timestamp), storageKey, stored);
    var signed := SignChallenge(me.verifying, OfflineSigned(cipher, timestamp));
    OfflineMessage(IdentityHash(me), timestamp, cipher, signed)
  }

  function PurgePayload(me: Identity, timestamp: i64): BlobPayload {
    Purge(IdentityHash(me), SignChallenge(me.verifying, PurgeSigned(timestamp)), timestamp)
  }

  function GenerateOfflineMessage(recipient: Identity, me: Identity, mine: Secret, text: string, timestamp: i64, coins: Coins): Data {
    EncryptBlob(recipient.x, [PackedPayload(OfflinePayload(recipient, me, mine, text, timestamp, coins.stored))], coins.eph, coins.blob)
  }

  function GeneratePurgeMessage(recipient: Identity, me: Identity, timestamp: i64, coins: Coins): Data {
    EncryptBlob(recipient.x, [PackedPayload(PurgePayload(me, timestamp))], coins.eph, coins.blob)
  }

  // ---- Handling ------------------------------------------------------------------------

  /** A handled blob: the disk afterwards, and the sender to report if a message was stored. */
  datatype Handling = Handling(disk: Disk, stored: Option<Hash>)

  predicate TooOld(timestamp: i64, now: i64) {
    now - timestamp > MAX_BLOB_AGE_SECS || timestamp - now > MAX_BLOB_AGE_SECS
  }

  function HandleOffline(d: Disk, p: BlobPayload, mine: Secret, now: i64, nonce: Nonce): Result<Handling, BlobError>
    requires p.OfflineMessage?
  {
    if TooOld(p.timestamp, now) then Err(ReplayDetected) else
    match LoadPeerData(d, p.sender)
    case None => Err(PeerLoadFailed)
    case Some(peer) =>
      if !VerifyChallenge(peer.verifying, OfflineSigned(p.ciphertext, p.timestamp), p.signature) then Err(InvalidSignature) else
      var storageKey := LoadStorageKey(peer.x, mine);
      match DecryptMessageStored(p.ciphertext, storageKey)
      case Err(_) => Err(DecryptionFailed)
      case Ok(plain) =>
        match UnpackMessage(plain)
        case None => Err(InvalidMessageFormat)
        case Some(sent) =>
          match InsertMessage(ChatOf(d, p.sender), Message(Peer, sent.text, p.timestamp), storageKey, nonce)
          case Err(_) => Err(ChatStorageFailed)
          case Ok(db) => Ok(Handling(d.(chats := d.chats[p.sender := db]), Some(p.sender)))
  }

  function HandlePurge(d: Disk, p: BlobPayload, now: i64): Result<Handling, BlobError>
    requires p.Purge?
  {
    if TooOld(p.timestamp, now) then Err(ReplayDetected) else
    match LoadPeerData(d, p.sender)
    case None => Err(UnknownPeer)
    case Some(peer) =>
      if !VerifyChallenge(peer.verifying, PurgeSigned(p.timestamp), p.signature) then Err(InvalidSignature)
      else Ok(Handling(d.(chats := d.chats - {p.sender}), None))
  }

  function HandleBlob(d: Disk, p: BlobPayload, mine: Secret, now: i64, nonce: Nonce): Result<Handling, BlobError> {
    match p
    case OfflineMessage(_, _, _, _) => HandleOffline(d, p, mine, now, nonce)
    case Purge(_, _, _) => HandlePurge(d, p, now)
  }

  function ProcessBlob(d: Disk, blob: Data, mine: Secret, now: i64, nonce: Nonce): Result<Handling, BlobError> {
    match DecryptBlob(blob, mine)
    case Err(_) => Err(DecryptionFailed)
    case Ok(plain) =>
      match UnpackPayload(plain)
      case None => Err(DeserializationFailed)
      case Some(p) => HandleBlob(d, p, mine, now, nonce)
  }

  // ---- What a blob means -----------------------------------------------------------------

  /** The effect of a valid blob on its sender's conversation. */
  datatype Effect = Append(sender: Hash, msg: Message) | Clear(sender: Hash)

  /** The payload a blob holds for the owner of `mine`. */
  function PayloadOf(blob: Data, mine: Secret): Option<BlobPayload> {
    match DecryptBlob(blob, mine)
    case Err(_) => None
    case Ok(plain) => UnpackPayload(plain)
  }

  /** In time, from a known peer, signed by that peer. */
  predicate Genuine(known: map<Hash, Identity>, p: BlobPayload, now: i64) {
    && !TooOld(p.timestamp, now)
    && p.sender in known
    && VerifyChallenge(known[p.sender].verifying,
                       if p.Purge? then PurgeSigned(p.timestamp) else OfflineSigned(p.ciphertext, p.timestamp),
                       p.signature)
  }

  function EffectOf(known: map<Hash, Identity>, blob: Data, mine: Secret, now: i64): Option<Effect> {
    match PayloadOf(blob, mine)
    case None => None
    case Some(p) =>
      if !Genuine(known, p, now) then None
      else if p.Purge? then Some(Clear(p.sender))
      else match DecodeStored(p.ciphertext, LoadStorageKey(known[p.sender].x, mine))
           case None => None
           case Some(sent) => Some(Append(p.sender, Message(Peer, sent.text, p.timestamp)))
  }

  /** The conversation with `h` as its owner reads it. */
  function Conversation(d: Disk, h: Hash, mine: Secret): seq<Message>
    requires h in d.known
  {
    History(ChatOf(d, h), Reader(LoadStorageKey(d.known[h].x, mine)))
  }

  function AfterEffect(conversation: seq<Message>, h: Hash, e: Option<Effect>): seq<Message> {
    match e
    case None => conversation
    case Some(Append(s, m)) => if s == h then conversation + [m] else conversation
    case Some(Clear(s)) => if s == h then [] else conversation
  }

  /** Every store has room for `n` more messages. */
  ghost predicate Room(d: Disk, n: nat) {
    forall h :: h in d.chats ==> exists bound: nat :: bound + n <= U64_MAX + 1 && Numbered(d.chats[h], bound)
  }

  /** The disk after a blob, handled or skipped. */
  function AfterBlob(d: Disk, blob: Data, mine: Secret, now: i64, nonce: Nonce): Disk {
    match ProcessBlob(d, blob, mine, now, nonce)
    case Ok(h) => h.disk
    case Err(_) => d
  }

  lemma {:induction false} RoomFor(d: Disk, n: nat, h: Hash) returns (bound: nat)
    requires Room(d, n) && n <= U64_MAX + 1
    ensures bound + n <= U64_MAX + 1 && Numbered(ChatOf(d, h), bound)
  {
    bound := 0;
    if h in d.chats {
      bound :| bound + n <= U64_MAX + 1 && Numbered(d.chats[h], bound);
    }
  }

  /** Storing a message for a known sender appends exactly it, and only there. */
  lemma {:induction false} StoringAppends(d: Disk, sender: Hash, msg: Message, key: Key, nonce: Nonce, n: nat)
    requires Room(d, n + 1) && n <= U64_MAX
    ensures var r := InsertMessage(ChatOf(d, sender), msg, key, nonce);
            && r.Ok?
            && History(r.value, Reader(key)) == History(ChatOf(d, sender), Reader(key)) + [msg]
            && Room(d.(chats := d.chats[sender := r.value]), n)
  {
    var bound := RoomFor(d, n + 1, sender);
    var db, value := ChatOf(d, sender), EncryptMessageStored(msg, key, nonce);
    var counter := InsertIsAppend(db, bound, value);
    AppendExtendsHistory(db, Entry(BE64(counter), value), Reader(key));
    StoredRoundTrip(msg, key, nonce, key);
    var d' := d.(chats := d.chats[sender := db + [Entry(BE64(counter), value)]]);
    forall h | h in d'.chats ensures exists b: nat :: b + n <= U64_MAX + 1 && Numbered(d'.chats[h], b) {
      if h == sender {
        assert Numbered(d'.chats[h], bound + 1);
      } else {
        var b: nat :| b + (n + 1) <= U64_MAX + 1 && Numbered(d.chats[h], b);
        assert Numbered(d'.chats[h], b);
      }
    }
  }

  lemma {:induction false} RoomShrinks(d: Disk, d': Disk, n: nat)
    requires Room(d, n + 1)
    requires forall h :: h in d'.chats ==> h in d.chats && d'.chats[h] == d.chats[h]
    ensures Room(d', n)
  {
    forall h | h in d'.chats ensures exists b: nat :: b + n <= U64_MAX + 1 && Numbered(d'.chats[h], b) {
      var b: nat :| b + (n + 1) <= U64_MAX + 1 && Numbered(d.chats[h], b);
      assert Numbered(d'.chats[h], b);
    }
  }

  /** Handling succeeds exactly for the blobs that mean something, and does what they mean. */
  lemma {:induction false} HandledAsMeant(d: Disk, blob: Data, mine: Secret, now: i64, nonce: Nonce, n: nat)
    requires Room(d, n + 1) && n <= U64_MAX
    ensures var r := ProcessBlob(d, blob, mine, now, nonce);
            var e := EffectOf(d.known, blob, mine, now);
            && (r.Ok? <==> e.Some?)
            && (r.Ok? ==>
                  && r.value.disk.known == d.known
                  && r.value.stored == (if e.value.Append? then Some(e.value.sender) else None))
            && Room(AfterBlob(d, blob, mine, now, nonce), n)
  {
    var r := ProcessBlob(d, blob, mine, now, nonce);
    var p := PayloadOf(blob, mine);
    if p.Some? && Genuine(d.known, p.value, now) {
      if p.value.OfflineMessage? {
        OfflineAsMeant(d, p.value, mine, now, nonce, n);
      } else {
        RoomShrinks(d, d.(chats := d.chats - {p.value.sender}), n);
      }
    }
    if r.Err? {
      RoomShrinks(d, d, n);
    }
  }

  lemma {:induction false} OfflineAsMeant(d: Disk, p: BlobPayload, mine: Secret, now: i64, nonce: Nonce, n: nat)
    requires Room(d, n + 1) && n <= U64_MAX
    requires p.OfflineMessage? && Genuine(d.known, p, now)
    ensures var key := LoadStorageKey(d.known[p.sender].x, mine);
            var r := HandleOffline(d, p, mine, now, nonce);
            match DecodeStored(p.ciphertext, key)
            case None => r.Err?
            case Some(sent) =>
              && r.Ok? && r.value.stored == Some(p.sender) && r.value.disk.known == d.known
              && Room(r.value.disk, n)
              && (forall h :: h != p.sender ==> ChatOf(r.value.disk, h) == ChatOf(d, h))
              && History(ChatOf(r.value.disk, p.sender), Reader(key)) ==
                 History(ChatOf(d, p.sender), Reader(key)) + [Message(Peer, sent.text, p.timestamp)]
  {
    var key := LoadStorageKey(d.known[p.sender].x, mine);
    match DecodeStored(p.ciphertext, key)
    case None =>
    case Some(sent) => StoringAppends(d, p.sender, Message(Peer, sent.text, p.timestamp), key, nonce, n);
  }

  /** One blob moves every conversation by its meaning: only its sender's, and by exactly that message or to nothing. */
  lemma {:induction false} BlobMovesConversations(d: Disk, blob: Data, mine: Secret, now: i64, nonce: Nonce, n: nat, h: Hash)
    requires Room(d, n + 1) && n <= U64_MAX && h in d.known
    ensures var d' := AfterBlob(d, blob, mine, now, nonce);
            d'.known == d.known &&
            Conversation(d', h, mine) == AfterEffect(Conversation(d, h, mine), h, EffectOf(d.known, blob, mine, now))
  {
    HandledAsMeant(d, blob, mine, now, nonce, n);
    var p := PayloadOf(blob, mine);
    if p.Some? && Genuine(d.known, p.value, now) {
      if p.value.OfflineMessage? {
        if DecodeStored(p.value.ciphertext, LoadStorageKey(d.known[p.value.sender].x, mine)).Some? {
          OfflineMoves(d, p.value, mine, now, nonce, n, h);
        }
      } else {
        PurgeMoves(d, p.value, mine, now, h);
      }
    }
  }

  lemma {:induction false} OfflineMoves(d: Disk, p: BlobPayload, mine: Secret, now: i64, nonce: Nonce, n: nat, h: Hash)
    requires Room(d, n + 1) && n <= U64_MAX && h in d.known
    requires p.OfflineMessage? && Genuine(d.known, p, now)
    requires DecodeStored(p.ciphertext, LoadStorageKey(d.known[p.sender].x, mine)).Some?
    ensures var r := HandleOffline(d, p, mine, now, nonce);
            var sent := DecodeStored(p.ciphertext, LoadStorageKey(d.known[p.sender].x, mine)).value;
            && r.Ok? && r.value.disk.known == d.known
            && Conversation(r.value.disk, h, mine) ==
               AfterEffect(Conversation(d, h, mine), h, Some(Append(p.sender, Message(Peer, sent.text, p.timestamp))))
  {
    OfflineAsMeant(d, p, mine, now, nonce, n);
  }

  lemma {:induction false} PurgeMoves(d: Disk, p: BlobPayload, mine: Secret, now: i64, h: Hash)
    requires h in d.known && p.Purge? && Genuine(d.known, p, now)
    ensures var r := HandlePurge(d, p, now);
            && r.Ok? && r.value.disk.known == d.known
            && Conversation(r.value.disk, h, mine) == AfterEffect(Conversation(d, h, mine), h, Some(Clear(p.sender)))
  {
  }

  // ---- Round trips -----------------------------------------------------------------------

  /** Thirty days. */
  const MONTH: int := 2_592_000

  /**
    A message generated for a peer and handled by that peer, exactly if within thirty
    days of its date, stores its text, authored by the peer and dated by the sender,
    in the sender's conversation.
   */
  lemma {:induction false} OfflineRoundTrip(d: Disk, recipient: Identity, theirs: Secret, me: Identity, mine: Secret,
                         text: string, timestamp: i64, coins: Coins, now: i64)
    requires theirs.pub == recipient.x && mine.pub == me.x
    requires IdentityHash(me) in d.known && d.known[IdentityHash(me)] == me
    ensures EffectOf(d.known, GenerateOfflineMessage(recipient, me, mine, text, timestamp, coins), theirs, now) ==
            if -MONTH <= now - timestamp <= MONTH then Some(Append(IdentityHash(me), Message(Peer, text, timestamp))) else None
  {
    var key := LoadStorageKey(recipient.x, mine);
    var payload := OfflinePayload(recipient, me, mine, text, timestamp, coins.stored);
    BlobRoundTrip(recipient.x, [PackedPayload(payload)], coins.eph, coins.blob, theirs);
    assert PayloadOf(GenerateOfflineMessage(recipient, me, mine, text, timestamp, coins), theirs) == Some(payload);
    UnorderedPairs(mine.pub, recipient.x, theirs.pub, me.x);
    assert key == LoadStorageKey(me.x, theirs);
    StoredRoundTrip(Message(You, text, timestamp), key, coins.stored, key);
  }

  /** A purge generated for a peer and handled by that peer, exactly if within thirty days, empties the sender's conversation. */
  lemma {:induction false} PurgeRoundTrip(d: Disk, recipient: Identity, theirs: Secret, me: Identity, timestamp: i64, coins: Coins, now: i64)
    requires theirs.pub == recipient.x
    requires IdentityHash(me) in d.known && d.known[IdentityHash(me)] == me
    ensures EffectOf(d.known, GeneratePurgeMessage(recipient, me, timestamp, coins), theirs, now) ==
            if -MONTH <= now - timestamp <= MONTH then Some(Clear(IdentityHash(me))) else None
  {
    var payload := PurgePayload(me, timestamp);
    BlobRoundTrip(recipient.x, [PackedPayload(payload)], coins.eph, coins.blob, theirs);
    assert PayloadOf(GeneratePurgeMessage(recipient, me, timestamp, coins), theirs) == Some(payload);
  }

  /** End to end: the recipient's conversation with the sender grows by exactly the text sent, every other stays as it was. */
  lemma {:induction false} OfflineMessageArrives(d: Disk, recipient: Identity, theirs: Secret, me: Identity, mine: Secret,
                              text: string, timestamp: i64, coins: Coins, now: i64, nonce: Nonce, h: Hash)
    requires theirs.pub == recipient.x && mine.pub == me.x
    requires IdentityHash(me) in d.known && d.known[IdentityHash(me)] == me && h in d.known
    requires !TooOld(timestamp, now) && Room(d, 1)
    ensures var d' := AfterBlob(d, GenerateOfflineMessage(recipient, me, mine, text, timestamp, coins), theirs, now, nonce);
            && d'.known == d.known
            && Conversation(d', h, theirs) ==
               Conversation(d, h, theirs) + if h == IdentityHash(me) then [Message(Peer, text, timestamp)] else []
  {
    OfflineRoundTrip(d, recipient, theirs, me, mine, text, timestamp, coins, now);
    BlobMovesConversations(d, GenerateOfflineMessage(recipient, me, mine, text, timestamp, coins), theirs, now, nonce, 0, h);
  }

  // ---- Draining ----------------------------------------------------------------------------

  datatype Wire =
    | PendingBlob(id: string, blob: Data)
    | PendingBlobsEnd
    | RequestHolePunch(peer: Hash, token: string)
    | AuthFailed
    | ServerError
    | OtherMessage

  /** A server message with the clock and nonce of its handling, and whether a response to it would go out. */
  datatype Arrival = Arrival(msg: Wire, now: i64, nonce: Nonce, sent: bool)

  datatype Step = Handled(id: string) | Acked(id: string) | Answered(token: string, accepted: bool)

  /** Hole-punch requests are answered by the running loop, from the peers it knows, and not while connecting. */
  datatype Mode = Connecting | Running(known: map<Hash, Identity>)

  /** How a drain ends: in order, or with the error of the same name. */
  datatype DrainOutcome = Drained | ConnectionClosed | WriteFailed | Rejected | Reported

  function AfterAll(d: Disk, arrivals: seq<Arrival>, mine: Secret): Disk {
    if arrivals == [] then d else
    var before, a := AfterAll(d, arrivals[..|arrivals| - 1], mine), arrivals[|arrivals| - 1];
    if a.msg.PendingBlob? then AfterBlob(before, a.msg.blob, mine, a.now, a.nonce) else before
  }

  /** What is done about one message. */
  function StepsFor(mode: Mode, a: Arrival): seq<Step> {
    match a.msg
    case PendingBlob(id, _) => [Handled(id)] + if a.sent then [Acked(id)] else []
    case RequestHolePunch(peer, token) => if mode.Running? && a.sent then [Answered(token, peer in mode.known)] else []
    case _ => []
  }

  function StepsOf(mode: Mode, arrivals: seq<Arrival>): seq<Step> {
    if arrivals == [] then []
    else StepsOf(mode, arrivals[..|arrivals| - 1]) + StepsFor(mode, arrivals[|arrivals| - 1])
  }

  function StoredReports(d: Disk, arrivals: seq<Arrival>, mine: Secret): seq<Hash> {
    if arrivals == [] then [] else
    var before, a := arrivals[..|arrivals| - 1], arrivals[|arrivals| - 1];
    StoredReports(d, before, mine) + if a.msg.PendingBlob? then ReportOf(AfterAll(d, before, mine), a, mine) else []
  }

  /** The report a blob gives rise to on this disk. */
  function ReportOf(d: Disk, a: Arrival, mine: Secret): seq<Hash>
    requires a.msg.PendingBlob?
  {
    match ProcessBlob(d, a.msg.blob, mine, a.now, a.nonce)
    case Ok(h) => Singleton(h.stored)
    case Err(_) => []
  }

  /** The meaning of a whole mailbox for one conversation. */
  function Replay(conversation: seq<Message>, known: map<Hash, Identity>, arrivals: seq<Arrival>, mine: Secret, h: Hash): seq<Message> {
    if arrivals == [] then conversation else
    var before, a := Replay(conversation, known, arrivals[..|arrivals| - 1], mine, h), arrivals[|arrivals| - 1];
    if a.msg.PendingBlob? then AfterEffect(before, h, EffectOf(known, a.msg.blob, mine, a.now)) else before
  }

  /** Good blobs or bad, each conversation ends as the fold of its own sender's valid payloads. */
  lemma {:induction false} DrainReplaysValidPayloads(d: Disk, arrivals: seq<Arrival>, mine: Secret, spare: nat, h: Hash)
    requires Room(d, |arrivals| + spare) && |arrivals| + spare <= U64_MAX + 1 && h in d.known
    ensures AfterAll(d, arrivals, mine).known == d.known
    ensures Room(AfterAll(d, arrivals, mine), spare)
    ensures Conversation(AfterAll(d, arrivals, mine), h, mine) == Replay(Conversation(d, h, mine), d.known, arrivals, mine, h)
    decreases |arrivals|
  {
    if arrivals != [] {
      var m := |arrivals| - 1;
      var a := arrivals[m];
      DrainReplaysValidPayloads(d, arrivals[..m], mine, spare + 1, h);
      var before := AfterAll(d, arrivals[..m], mine);
      if a.msg.PendingBlob? {
        HandledAsMeant(before, a.msg.blob, mine, a.now, a.nonce, spare);
        BlobMovesConversations(before, a.msg.blob, mine, a.now, a.nonce, spare, h);
      } else {
        RoomShrinks(before, before, spare);
      }
    }
  }

  function HandledIds(steps: seq<Step>): seq<string> {
    if steps == [] then []
    else HandledIds(steps[..|steps| - 1]) + if steps[|steps| - 1].Handled? then [steps[|steps| - 1].id] else []
  }

  function AckedIds(steps: seq<Step>): seq<string> {
    if steps == [] then []
    else AckedIds(steps[..|steps| - 1]) + if steps[|steps| - 1].Acked? then [steps[|steps| - 1].id] else []
  }

  function BlobIds(arrivals: seq<Arrival>): seq<string> {
    if arrivals == [] then []
    else BlobIds(arrivals[..|arrivals| - 1]) + if arrivals[|arrivals| - 1].msg.PendingBlob? then [arrivals[|arrivals| - 1].msg.id] else []
  }

  lemma {:induction false} IdsAppend(steps: seq<Step>, s: Step)
    ensures HandledIds(steps + [s]) == HandledIds(steps) + if s.Handled? then [s.id] else []
    ensures AckedIds(steps + [s]) == AckedIds(steps) + if s.Acked? then [s.id] else []
  {
    assert (steps + [s])[..|steps|] == steps;
  }

  /** Acknowledgements trail handling, in order, by at most one. */
  predicate Trails(steps: seq<Step>) {
    AckedIds(steps) <= HandledIds(steps) && |HandledIds(steps)| <= |AckedIds(steps)| + 1
  }

  /** Every blob among the first `n` arrivals has its acknowledgement taken by the connection. */
  ghost predicate AcksGoOut(arrivals: seq<Arrival>, n: nat)
    requires n <= |arrivals|
  {
    forall k :: 0 <= k < n && arrivals[k].msg.PendingBlob? ==> arrivals[k].sent
  }

  /** The steps of one message, on top of any: nothing but the ids of its own blob. */
  lemma {:induction false} IdsOfOne(mode: Mode, before: seq<Step>, a: Arrival)
    requires a.msg.PendingBlob? ==> a.sent
    ensures var own := if a.msg.PendingBlob? then [a.msg.id] else [];
            && HandledIds(before + StepsFor(mode, a)) == HandledIds(before) + own
            && AckedIds(before + StepsFor(mode, a)) == AckedIds(before) + own
  {
    if a.msg.PendingBlob? {
      IdsAppend(before, Handled(a.msg.id));
      IdsAppend(before + [Handled(a.msg.id)], Acked(a.msg.id));
      assert before + StepsFor(mode, a) == before + [Handled(a.msg.id)] + [Acked(a.msg.id)];
    } else if StepsFor(mode, a) == [] {
      assert before + StepsFor(mode, a) == before;
    } else {
      IdsAppend(before, StepsFor(mode, a)[0]);
      assert before + StepsFor(mode, a) == before + [StepsFor(mode, a)[0]];
    }
  }

  /** While every acknowledgement goes out, each blob is handled once and acknowledged once, in arrival order. */
  lemma {:induction false} AcksInOrder(mode: Mode, arrivals: seq<Arrival>)
    requires AcksGoOut(arrivals, |arrivals|)
    ensures HandledIds(StepsOf(mode, arrivals)) == BlobIds(arrivals) && AckedIds(StepsOf(mode, arrivals)) == BlobIds(arrivals)
    decreases |arrivals|
  {
    if arrivals != [] {
      var m := |arrivals| - 1;
      AcksInOrder(mode, arrivals[..m]);
      IdsOfOne(mode, StepsOf(mode, arrivals[..m]), arrivals[m]);
    }
  }

  /** On top of settled steps: one more, and a blob handled and acknowledged. */
  lemma {:induction false} TrailsOnTop(before: seq<Step>, s: Step, id: string)
    requires AckedIds(before) == HandledIds(before) && !s.Acked?
    ensures Trails(before) && Trails(before + [s]) && Trails(before + [Handled(id)] + [Acked(id)])
  {
    IdsAppend(before, s);
    IdsAppend(before, Handled(id));
    IdsAppend(before + [Handled(id)], Acked(id));
  }

  /** The steps of one message: none, one that is no acknowledgement, or a blob handled and acknowledged. */
  lemma {:induction false} StepsOfOne(mode: Mode, a: Arrival)
    ensures var own := StepsFor(mode, a);
            own == [] || (own == [own[0]] && !own[0].Acked?) || (a.msg.PendingBlob? && own == [Handled(a.msg.id), Acked(a.msg.id)])
  {
  }

  /** In the middle of one message's steps, at most its own blob is unacknowledged. */
  lemma {:induction false} TrailsWithinOne(mode: Mode, before: seq<Step>, a: Arrival, n: nat)
    requires AckedIds(before) == HandledIds(before) && n <= |StepsFor(mode, a)|
    ensures Trails(before + StepsFor(mode, a)[..n])
  {
    StepsOfOne(mode, a);
    TrailsWithin(before, StepsFor(mode, a), n);
  }

  lemma {:induction false} TrailsWithin(before: seq<Step>, own: seq<Step>, n: nat)
    requires AckedIds(before) == HandledIds(before) && n <= |own| <= 2
    requires |own| == 1 ==> !own[0].Acked?
    requires |own| == 2 ==> own[0].Handled? && own[1] == Acked(own[0].id)
    ensures Trails(before + own[..n])
  {
    if n == 0 {
      assert before + own[..n] == before;
    } else {
      TrailsOnTop(before, own[0], if own[0].Handled? then own[0].id else "");
      assert before + own[..n] == if n == 1 then before + [own[0]] else before + [own[0]] + [own[1]];
    }
  }

  /** At every moment, while connecting and while running, at most one handled blob is still unacknowledged. */
  lemma {:induction false} AtMostOneUnacked(mode: Mode, arrivals: seq<Arrival>, n: nat)
    requires arrivals != [] ==> AcksGoOut(arrivals, |arrivals| - 1)
    requires n <= |StepsOf(mode, arrivals)|
    ensures Trails(StepsOf(mode, arrivals)[..n])
    decreases |arrivals|
  {
    if arrivals != [] {
      var m := |arrivals| - 1;
      var before, own := StepsOf(mode, arrivals[..m]), StepsFor(mode, arrivals[m]);
      if n <= |before| {
        AtMostOneUnacked(mode, arrivals[..m], n);
      } else {
        AcksInOrder(mode, arrivals[..m]);
        TrailsWithinOne(mode, before, arrivals[m], n - |before|);
      }
      PrefixOfSum(before, own, n);
    }
  }

  lemma {:induction false} PrefixOfSum(before: seq<Step>, own: seq<Step>, n: nat)
    requires n <= |before| + |own|
    ensures (before + own)[..n] == if n <= |before| then before[..n] else before + own[..n - |before|]
  {
  }

  /** The tokens answered with `accepted`, in order. */
  function Answers(steps: seq<Step>, accepted: bool): seq<string> {
    if steps == [] then [] else
    var last := steps[|steps| - 1];
    Answers(steps[..|steps| - 1], accepted) + if last.Answered? && last.accepted == accepted then [last.token] else []
  }

  /** The hole-punch requests that get an answer through: from known peers, or from strangers. */
  function Requests(arrivals: seq<Arrival>, known: map<Hash, Identity>, fromKnown: bool): seq<string> {
    if arrivals == [] then [] else
    var a := arrivals[|arrivals| - 1];
    Requests(arrivals[..|arrivals| - 1], known, fromKnown) +
    if a.msg.RequestHolePunch? && a.sent && (a.msg.peer in known) == fromKnown then [a.msg.token] else []
  }

  lemma {:induction false} AnswersAppend(steps: seq<Step>, s: Step, accepted: bool)
    ensures Answers(steps + [s], accepted) == Answers(steps, accepted) + if s.Answered? && s.accepted == accepted then [s.token] else []
  {
    assert (steps + [s])[..|steps|] == steps;
  }

  lemma {:induction false} AnswersOfOne(mode: Mode, before: seq<Step>, a: Arrival, accepted: bool)
    ensures Answers(before + StepsFor(mode, a), accepted) == Answers(before, accepted) +
            if mode.Running? && a.msg.RequestHolePunch? && a.sent && (a.msg.peer in mode.known) == accepted then [a.msg.token] else []
  {
    var own := StepsFor(mode, a);
    if own == [] {
      assert before + own == before;
    } else {
      AnswersAppend(before, own[0], accepted);
      if |own| == 1 {
        assert before + own == before + [own[0]];
      } else {
        AnswersAppend(before + [own[0]], own[1], accepted);
        assert before + own == before + [own[0]] + [own[1]];
      }
    }
  }

  /** Running, exactly the known peers' requests are accepted and exactly the strangers' refused, in order; connecting, none is answered. */
  lemma {:induction false} AnswersAreExact(mode: Mode, arrivals: seq<Arrival>, accepted: bool)
    ensures Answers(StepsOf(mode, arrivals), accepted) == if mode.Running? then Requests(arrivals, mode.known, accepted) else []
    decreases |arrivals|
  {
    if arrivals != [] {
      var m := |arrivals| - 1;
      AnswersAreExact(mode, arrivals[..m], accepted);
      AnswersOfOne(mode, StepsOf(mode, arrivals[..m]), arrivals[m], accepted);
    }
  }

  /** The senders of the messages that valid blobs append, in order. */
  function AppendSenders(known: map<Hash, Identity>, arrivals: seq<Arrival>, mine: Secret): seq<Hash> {
    if arrivals == [] then [] else
    var a := arrivals[|arrivals| - 1];
    AppendSenders(known, arrivals[..|arrivals| - 1], mine) +
    if a.msg.PendingBlob? then SenderIfAppend(EffectOf(known, a.msg.blob, mine, a.now)) else []
  }

  function SenderIfAppend(e: Option<Effect>): seq<Hash> {
    if e.Some? && e.value.Append? then [e.value.sender] else []
  }

  /** A stored message is reported for exactly the valid messages, in order; purges and bad blobs are not. */
  lemma {:induction false} ReportsAreAppends(d: Disk, arrivals: seq<Arrival>, mine: Secret, spare: nat)
    requires Room(d, |arrivals| + spare) && |arrivals| + spare <= U64_MAX + 1
    ensures StoredReports(d, arrivals, mine) == AppendSenders(d.known, arrivals, mine)
    ensures AfterAll(d, arrivals, mine).known == d.known && Room(AfterAll(d, arrivals, mine), spare)
    decreases |arrivals|
  {
    if arrivals != [] {
      var m := |arrivals| - 1;
      var a := arrivals[m];
      ReportsAreAppends(d, arrivals[..m], mine, spare + 1);
      var before := AfterAll(d, arrivals[..m], mine);
      if a.msg.PendingBlob? {
        HandledAsMeant(before, a.msg.blob, mine, a.now, a.nonce, spare);
        ReportIsAppend(before, a, mine);
      } else {
        RoomShrinks(before, before, spare);
      }
    }
  }

  lemma {:induction false} ReportIsAppend(d: Disk, a: Arrival, mine: Secret)
    requires a.msg.PendingBlob?
    requires var r, e := ProcessBlob(d, a.msg.blob, mine, a.now, a.nonce), EffectOf(d.known, a.msg.blob, mine, a.now);
             (r.Ok? <==> e.Some?) && (r.Ok? ==> r.value.stored == if e.value.Append? then Some(e.value.sender) else None)
    ensures ReportOf(d, a, mine) == SenderIfAppend(EffectOf(d.known, a.msg.blob, mine, a.now))
  {
  }

  /** What ends the drain: the end marker, a refusal, an error, a blob whose acknowledgement cannot be written. */
  predicate Decides(a: Arrival) {
    a.msg.PendingBlobsEnd? || a.msg.AuthFailed? || a.msg.ServerError? || (a.msg.PendingBlob? && !a.sent)
  }

  /** How it then ends: well at the end marker and nowhere else, and each other way with its own error. */
  predicate Concludes(a: Arrival, outcome: DrainOutcome) {
    && (outcome.Drained? <==> a.msg.PendingBlobsEnd?)
    && (outcome.Rejected? <==> a.msg.AuthFailed?)
    && (outcome.Reported? <==> a.msg.ServerError?)
    && (outcome.WriteFailed? <==> a.msg.PendingBlob?)
  }

  /** A response that cannot be queued ends the running loop. */
  predicate Unanswerable(a: Arrival) {
    (a.msg.PendingBlob? || a.msg.RequestHolePunch?) && !a.sent
  }

  /** Blobs leave the peer directory alone. */
  lemma {:induction false} DirectoryStays(d: Disk, arrivals: seq<Arrival>, mine: Secret)
    ensures AfterAll(d, arrivals, mine).known == d.known
    decreases |arrivals|
  {
    if arrivals != [] {
      DirectoryStays(d, arrivals[..|arrivals| - 1], mine);
    }
  }

  /** The three accounts kept of a mailbox: the disk, the steps taken, the stored messages reported. */
  datatype Ledger = Ledger(disk: Disk, steps: seq<Step>, reports: seq<Hash>)

  /** One message, in all three accounts. */
  function Serve(mode: Mode, l: Ledger, a: Arrival, mine: Secret): Ledger {
    if a.msg.PendingBlob? then
      Ledger(AfterBlob(l.disk, a.msg.blob, mine, a.now, a.nonce), l.steps + StepsFor(mode, a), l.reports + ReportOf(l.disk, a, mine))
    else l.(steps := l.steps + StepsFor(mode, a))
  }

  function ServeAll(mode: Mode, l: Ledger, arrivals: seq<Arrival>, mine: Secret): Ledger {
    if arrivals == [] then l
    else Serve(mode, ServeAll(mode, l, arrivals[..|arrivals| - 1], mine), arrivals[|arrivals| - 1], mine)
  }

  lemma {:induction false} ServeOneMore(mode: Mode, l: Ledger, arrivals: seq<Arrival>, n: nat, mine: Secret)
    requires n < |arrivals|
    ensures ServeAll(mode, l, arrivals[..n + 1], mine) == Serve(mode, ServeAll(mode, l, arrivals[..n], mine), arrivals[n], mine)
  {
    assert arrivals[..n + 1][..n] == arrivals[..n];
  }

  lemma {:induction false} ServedNext(mode: Mode, l: Ledger, arrivals: seq<Arrival>, n: nat, mine: Secret, before: Ledger, after: Ledger)
    requires n < |arrivals| && before == ServeAll(mode, l, arrivals[..n], mine) && after == Serve(mode, before, arrivals[n], mine)
    ensures after == ServeAll(mode, l, arrivals[..n + 1], mine)
  {
    ServeOneMore(mode, l, arrivals, n, mine);
  }

  /** Each account on its own. */
  lemma {:induction false} ServedApart(mode: Mode, l: Ledger, arrivals: seq<Arrival>, mine: Secret)
    ensures ServeAll(mode, l, arrivals, mine) ==
            Ledger(AfterAll(l.disk, arrivals, mine), l.steps + StepsOf(mode, arrivals), l.reports + StoredReports(l.disk, arrivals, mine))
    decreases |arrivals|
  {
    if arrivals == [] {
      assert l.steps + [] == l.steps && l.reports + [] == l.reports;
    } else {
      var m := |arrivals| - 1;
      var pre, a := arrivals[..m], arrivals[m];
      ServedApart(mode, l, pre, mine);
      ServeOnTop(mode, l, AfterAll(l.disk, pre, mine), StepsOf(mode, pre), StoredReports(l.disk, pre, mine), a, mine);
    }
  }

  /** Serving a message on top of earlier accounts adds to each of them separately. */
  lemma {:induction false} ServeOnTop(mode: Mode, l: Ledger, d: Disk, steps: seq<Step>, reports: seq<Hash>, a: Arrival, mine: Secret)
    ensures Serve(mode, Ledger(d, l.steps + steps, l.reports + reports), a, mine) ==
            Ledger(if a.msg.PendingBlob? then AfterBlob(d, a.msg.blob, mine, a.now, a.nonce) else d,
                   l.steps + (steps + StepsFor(mode, a)),
                   l.reports + (reports + if a.msg.PendingBlob? then ReportOf(d, a, mine) else []))
  {
    assert l.steps + steps + StepsFor(mode, a) == l.steps + (steps + StepsFor(mode, a));
    assert reports + [] == reports;
    if a.msg.PendingBlob? {
      var own := ReportOf(d, a, mine);
      assert l.reports + reports + own == l.reports + (reports + own);
    }
  }

  lemma {:induction false} DirectoryServed(mode: Mode, l: Ledger, arrivals: seq<Arrival>, mine: Secret)
    ensures ServeAll(mode, l, arrivals, mine).disk.known == l.disk.known
  {
    ServedApart(mode, l, arrivals, mine);
    DirectoryStays(l.disk, arrivals, mine);
  }

  class Inbox {
    const mine: Secret
    var disk: Disk
    var steps: seq<Step>
    var reports: seq<Hash>

    ghost function Accounts(): Ledger
      reads this
    {
      Ledger(disk, steps, reports)
    }

    constructor (mine: Secret, disk: Disk)
      ensures this.mine == mine && Accounts() == Ledger(disk, [], [])
    {
      this.mine := mine;
      this.disk := disk;
      steps, reports := [], [];
    }

    /** Process one pending blob and acknowledge it whatever the outcome. */
    method HandlePending(a: Arrival, ghost mode: Mode)
      requires a.msg.PendingBlob?
      modifies this
      ensures Accounts() == Serve(mode, old(Accounts()), a, mine)
    {
      match ProcessBlob(disk, a.msg.blob, mine, a.now, a.nonce) {
        case Ok(h) =>
          disk := h.disk;
          if h.stored.Some? {
            reports := reports + [h.stored.value];
          }
        case Err(_) =>
      }
      steps := steps + [Handled(a.msg.id)];
      if a.sent {
        steps := steps + [Acked(a.msg.id)];
      }
    }

    /** One message of the running loop; false when its response cannot be queued. */
    method HandleMessage(a: Arrival) returns (goOn: bool)
      modifies this
      ensures Accounts() == Serve(Running(old(disk).known), old(Accounts()), a, mine)
      ensures goOn == !Unanswerable(a)
    {
      goOn := true;
      match a.msg {
        case PendingBlob(_, _) =>
          HandlePending(a, Running(disk.known));
          goOn := a.sent;
        case RequestHolePunch(peer, token) =>
          var known := LoadPeerData(disk, peer).Some?;
          if a.sent {
            steps := steps + [Answered(token, known)];
          }
          goOn := a.sent;
        case _ =>
      }
    }

    /** One message of the connect-time loop, and what it decides. */
    method DrainMessage(a: Arrival) returns (verdict: Option<DrainOutcome>)
      modifies this
      ensures Accounts() == Serve(Connecting, old(Accounts()), a, mine)
      ensures verdict.Some? <==> Decides(a)
      ensures verdict.Some? ==> Concludes(a, verdict.value)
    {
      verdict := None;
      match a.msg {
        case PendingBlobsEnd => verdict := Some(Drained);
        case AuthFailed => verdict := Some(Rejected);
        case ServerError => verdict := Some(Reported);
        case PendingBlob(_, _) =>
          HandlePending(a, Connecting);
          if !a.sent {
            verdict := Some(WriteFailed);
          }
        case _ =>
      }
    }

    /**
      The connect-time drain. It takes arrivals until the end marker, a refusal, a
      failed acknowledgement or a closed connection; up to there it is the fold.
     */
    method Drain(arrivals: seq<Arrival>) returns (outcome: DrainOutcome, taken: nat)
      modifies this
      ensures taken <= |arrivals|
      ensures Accounts() == ServeAll(Connecting, old(Accounts()), arrivals[..taken], mine)
      ensures forall k :: 0 <= k < taken - 1 ==> !Decides(arrivals[k])
      ensures !outcome.ConnectionClosed? ==> taken > 0 && Decides(arrivals[taken - 1]) && Concludes(arrivals[taken - 1], outcome)
      ensures outcome.ConnectionClosed? ==> taken == |arrivals| && (taken > 0 ==> !Decides(arrivals[taken - 1]))
    {
      ghost var start := Accounts();
      taken := 0;
      outcome := ConnectionClosed;
      while taken < |arrivals|
        invariant taken <= |arrivals|
        invariant Accounts() == ServeAll(Connecting, start, arrivals[..taken], mine)
        invariant forall k :: 0 <= k < taken ==> !Decides(arrivals[k])
      {
        ghost var before := Accounts();
        var verdict := DrainMessage(arrivals[taken]);
        ServedNext(Connecting, start, arrivals, taken, mine, before, Accounts());
        taken := taken + 1;
        if verdict.Some? {
          outcome := verdict.value;
          break;
        }
      }
    }

    /** The running dispatch loop: only a response that cannot be queued ends it. */
    method Dispatch(arrivals: seq<Arrival>) returns (taken: nat)
      modifies this
      ensures taken <= |arrivals|
      ensures Accounts() == ServeAll(Running(old(disk).known), old(Accounts()), arrivals[..taken], mine)
      ensures forall k :: 0 <= k < taken - 1 ==> !Unanswerable(arrivals[k])
      ensures taken < |arrivals| ==> taken > 0 && Unanswerable(arrivals[taken - 1])
    {
      ghost var mode, start := Running(disk.known), Accounts();
      taken := 0;
      while taken < |arrivals|
        invariant taken <= |arrivals|
        invariant Accounts() == ServeAll(mode, start, arrivals[..taken], mine)
        invariant forall k :: 0 <= k < taken ==> !Unanswerable(arrivals[k])
      {
        ghost var before := Accounts();
        DirectoryServed(mode, start, arrivals[..taken], mine);
        var goOn := HandleMessage(arrivals[taken]);
        ServedNext(mode, start, arrivals, taken, mine, before, Accounts());
        taken := taken + 1;
        if !goOn {
          return;
        }
      }
    }
  }
}
