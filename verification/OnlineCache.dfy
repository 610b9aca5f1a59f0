/**
  The cache of online peers (crates/serverclient): a vector pruned only when it
  is read, standing for a map with a time to live.
 */
module OnlineCache {
  import opened Common
  import opened Crypto

  const ONLINE_TTL_SECS: int := 35

  datatype OnlinePeer = OnlinePeer(keys: Identity, address: string, lastSeen: int)

  predicate Current(p: OnlinePeer, now: int) {
    now - p.lastSeen <= ONLINE_TTL_SECS
  }

  /** `retain` by age. */
  function Prune(peers: seq<OnlinePeer>, now: int): seq<OnlinePeer> {
    if peers == [] then []
    else Prune(peers[..|peers| - 1], now) + if Current(peers[|peers| - 1], now) then [peers[|peers| - 1]] else []
  }

  /** `retain` by hash. */
  function Without(peers: seq<OnlinePeer>, h: Hash): seq<OnlinePeer> {
    if peers == [] then []
    else Without(peers[..|peers| - 1], h) + if IdentityHash(peers[|peers| - 1].keys) != h then [peers[|peers| - 1]] else []
  }

  ghost predicate NoDuplicates(peers: seq<OnlinePeer>) {
    forall i, j :: 0 <= i < j < |peers| ==> IdentityHash(peers[i].keys) != IdentityHash(peers[j].keys)
  }

  /** The vector read as a map from hash to entry. */
  ghost predicate Represents(peers: seq<OnlinePeer>, m: map<Hash, OnlinePeer>) {
    && NoDuplicates(peers)
    && (forall i :: 0 <= i < |peers| ==> IdentityHash(peers[i].keys) in m && m[IdentityHash(peers[i].keys)] == peers[i])
    && (forall h :: h in m ==> m[h] in peers && IdentityHash(m[h].keys) == h)
  }

  lemma {:induction false} PruneIsFilter(peers: seq<OnlinePeer>, now: int)
    ensures forall p :: p in Prune(peers, now) <==> p in peers && Current(p, now)
    ensures NoDuplicates(peers) ==> NoDuplicates(Prune(peers, now))
    decreases |peers|
  {
    if peers != [] {
      var m := |peers| - 1;
      PruneIsFilter(peers[..m], now);
      assert peers == peers[..m] + [peers[m]];
      if NoDuplicates(peers) {
        var kept := Prune(peers[..m], now);
        forall i | 0 <= i < |kept| ensures IdentityHash(kept[i].keys) != IdentityHash(peers[m].keys) {
          assert kept[i] in peers[..m];
        }
      }
    }
  }

  lemma {:induction false} WithoutIsFilter(peers: seq<OnlinePeer>, h: Hash)
    ensures forall p :: p in Without(peers, h) <==> p in peers && IdentityHash(p.keys) != h
    ensures NoDuplicates(peers) ==> NoDuplicates(Without(peers, h))
    decreases |peers|
  {
    if peers != [] {
      var m := |peers| - 1;
      WithoutIsFilter(peers[..m], h);
      assert peers == peers[..m] + [peers[m]];
      if NoDuplicates(peers) {
        var kept := Without(peers[..m], h);
        forall i | 0 <= i < |kept| ensures IdentityHash(kept[i].keys) != IdentityHash(peers[m].keys) {
          assert kept[i] in peers[..m];
        }
      }
    }
  }

  // ---- The reference -----------------------------------------------------------------

  /**
    A peer announced at an address, with what the directory held under its hash at
    that moment; a peer going away; or a read.
   */
  datatype Op =
    | Announce(hash: Hash, found: Option<Identity>, address: string, now: int)
    | Leave(hash: Hash)
    | Read(now: int)

  /** An announcement the directory knows: the entry it makes. */
  function EntryOf(op: Op): (e: OnlinePeer)
    requires op.Announce? && op.found.Some?
    ensures e.lastSeen == op.now
  {
    OnlinePeer(op.found.value, op.address, op.now)
  }

  /** The latest announcement of every peer known when it was announced and not since removed; reads change nothing. */
  function Latest(ops: seq<Op>): map<Hash, OnlinePeer> {
    if ops == [] then map[] else
    var m, op := Latest(ops[..|ops| - 1]), ops[|ops| - 1];
    match op
    case Announce(h, found, _, _) => if found.Some? then m[h := EntryOf(op)] else m
    case Leave(h) => m - {h}
    case Read(_) => m
  }

  /** What the directory returns for a hash is filed under that hash. */
  predicate FiledOp(op: Op) {
    op.Announce? && op.found.Some? ==> IdentityHash(op.found.value) == op.hash
  }

  ghost predicate Filed(ops: seq<Op>) {
    forall i :: 0 <= i < |ops| ==> FiledOp(ops[i])
  }

  function Find(peers: seq<OnlinePeer>, h: Hash): (i: int)
    ensures -1 <= i < |peers|
    ensures i == -1 <==> forall k :: 0 <= k < |peers| ==> IdentityHash(peers[k].keys) != h
    ensures i >= 0 ==> IdentityHash(peers[i].keys) == h
  {
    if peers == [] then -1
    else if IdentityHash(peers[0].keys) == h then 0
    else var i := Find(peers[1..], h);
         assert peers == [peers[0]] + peers[1..];
         if i == -1 then -1 else i + 1
  }

  function AppendPeer(peers: seq<OnlinePeer>, h: Hash, found: Option<Identity>, address: string, now: int): seq<OnlinePeer> {
    if found.None? then peers else
    var i := Find(peers, h);
    if i >= 0 then peers[i := peers[i].(address := address, lastSeen := now)]
    else peers + [OnlinePeer(found.value, address, now)]
  }

  function Vector(ops: seq<Op>): seq<OnlinePeer> {
    if ops == [] then [] else VectorStep(Vector(ops[..|ops| - 1]), ops[|ops| - 1])
  }

  function VectorStep(v: seq<OnlinePeer>, op: Op): seq<OnlinePeer> {
    match op
    case Announce(h, found, address, now) => AppendPeer(v, h, found, address, now)
    case Leave(h) => Without(v, h)
    case Read(now) => Prune(v, now)
  }

  /** An announcement, and whether every read since found it current. */
  datatype Mark = Mark(entry: OnlinePeer, kept: bool)

  /** `Latest` with each announcement marked by whether some read has already dropped it. */
  function Marks(ops: seq<Op>): map<Hash, Mark> {
    if ops == [] then map[] else MarkStep(Marks(ops[..|ops| - 1]), ops[|ops| - 1])
  }

  function MarkStep(m: map<Hash, Mark>, op: Op): map<Hash, Mark> {
    match op
    case Announce(h, found, _, _) => if found.Some? then m[h := Mark(EntryOf(op), true)] else m
    case Leave(h) => m - {h}
    case Read(now) => map h | h in m :: Mark(m[h].entry, m[h].kept && Current(m[h].entry, now))
  }

  function Kept(m: map<Hash, Mark>): map<Hash, OnlinePeer> {
    map h | h in m && m[h].kept :: m[h].entry
  }

  function Recent(m: map<Hash, OnlinePeer>, now: int): map<Hash, OnlinePeer> {
    map h | h in m && Current(m[h], now) :: m[h]
  }

  lemma {:induction false} MarksMarkLatest(ops: seq<Op>)
    ensures Marks(ops).Keys == Latest(ops).Keys
    ensures forall h :: h in Latest(ops) ==> Marks(ops)[h].entry == Latest(ops)[h]
    decreases |ops|
  {
    if ops != [] {
      MarksMarkLatest(ops[..|ops| - 1]);
    }
  }

  // ---- The vector stands for the map ------------------------------------------------------

  lemma {:induction false} AnnounceRepresents(v: seq<OnlinePeer>, m: map<Hash, OnlinePeer>, op: Op)
    requires Represents(v, m) && op.Announce? && op.found.Some? && FiledOp(op)
    ensures Represents(VectorStep(v, op), m[op.hash := EntryOf(op)])
  {
    var i := Find(v, op.hash);
    var e := EntryOf(op);
    if i >= 0 {
      assert v[i].keys == e.keys;
      ReplaceRepresents(v, m, i, e);
    } else {
      PushRepresents(v, m, e);
    }
  }

  lemma {:induction false} ReplaceRepresents(v: seq<OnlinePeer>, m: map<Hash, OnlinePeer>, i: nat, e: OnlinePeer)
    requires Represents(v, m) && i < |v| && v[i].keys == e.keys
    ensures Represents(v[i := e], m[IdentityHash(e.keys) := e])
  {
    var v', h := v[i := e], IdentityHash(e.keys);
    assert v'[i] == e;
    forall k | k in m && k != h ensures m[k] in v' {
      var j :| 0 <= j < |v| && v[j] == m[k];
      assert v'[j] == m[k];
    }
  }

  lemma {:induction false} PushRepresents(v: seq<OnlinePeer>, m: map<Hash, OnlinePeer>, e: OnlinePeer)
    requires Represents(v, m)
    requires forall k :: 0 <= k < |v| ==> IdentityHash(v[k].keys) != IdentityHash(e.keys)
    ensures Represents(v + [e], m[IdentityHash(e.keys) := e])
  {
    assert (v + [e])[|v|] == e;
  }

  lemma {:induction false} LeaveRepresents(v: seq<OnlinePeer>, m: map<Hash, OnlinePeer>, h: Hash)
    requires Represents(v, m)
    ensures Represents(Without(v, h), m - {h})
  {
    WithoutIsFilter(v, h);
    var v' := Without(v, h);
    forall i | 0 <= i < |v'| ensures v'[i] in v && IdentityHash(v'[i].keys) != h {
      assert v'[i] in v';
    }
  }

  lemma {:induction false} ReadRepresents(v: seq<OnlinePeer>, m: map<Hash, OnlinePeer>, now: int)
    requires Represents(v, m)
    ensures Represents(Prune(v, now), Recent(m, now))
  {
    PruneIsFilter(v, now);
    var v' := Prune(v, now);
    forall i | 0 <= i < |v'| ensures v'[i] in v && Current(v'[i], now) {
      assert v'[i] in v';
    }
  }

  lemma {:induction false} RepresentsOne(v: seq<OnlinePeer>, m: map<Hash, OnlinePeer>, m': map<Hash, OnlinePeer>)
    requires Represents(v, m) && Represents(v, m')
    ensures m == m'
  {
    forall h ensures h in m <==> h in m' {
    }
    forall h | h in m ensures m[h] == m'[h] {
      assert m[h] in v;
    }
  }

  /**
    After any run, under any clock and whatever the directory held when, the vector
    has one entry per hash and holds exactly the latest announcements that no read
    since has found expired.
   */
  lemma {:induction false} VectorHoldsKept(ops: seq<Op>)
    requires Filed(ops)
    ensures Represents(Vector(ops), Kept(Marks(ops)))
    decreases |ops|
  {
    if ops != [] {
      var pre, op := ops[..|ops| - 1], ops[|ops| - 1];
      assert forall i :: 0 <= i < |pre| ==> pre[i] == ops[i];
      assert FiledOp(op);
      VectorHoldsKept(pre);
      OpRepresents(Vector(pre), Marks(pre), op);
    }
  }

  lemma {:induction false} OpRepresents(v: seq<OnlinePeer>, m: map<Hash, Mark>, op: Op)
    requires FiledOp(op) && Represents(v, Kept(m))
    ensures Represents(VectorStep(v, op), Kept(MarkStep(m, op)))
  {
    match op
    case Announce(h, found, _, _) =>
      if found.Some? {
        AnnounceRepresents(v, Kept(m), op);
        assert Kept(MarkStep(m, op)) == Kept(m)[h := EntryOf(op)];
      }
    case Leave(h) =>
      LeaveRepresents(v, Kept(m), h);
      assert Kept(MarkStep(m, op)) == Kept(m) - {h};
    case Read(now) =>
      ReadRepresents(v, Kept(m), now);
      assert Kept(MarkStep(m, op)) == Recent(Kept(m), now);
  }

  lemma {:induction false} VectorAfterRead(ops: seq<Op>, now: int)
    requires Filed(ops)
    ensures Represents(Vector(ops + [Read(now)]), Recent(Kept(Marks(ops)), now))
  {
    assert (ops + [Read(now)])[..|ops|] == ops;
    VectorHoldsKept(ops);
    ReadRepresents(Vector(ops), Kept(Marks(ops)), now);
  }

  // ---- When a read is complete --------------------------------------------------------------

  /** The operation announces `h` anew or removes it. */
  predicate Replaces(op: Op, h: Hash) {
    (op.Announce? && op.found.Some? && op.hash == h) || (op.Leave? && op.hash == h)
  }

  /** Operation `i` is a known announcement that nothing later replaced or removed. */
  ghost predicate Standing(ops: seq<Op>, i: nat) {
    && i < |ops| && ops[i].Announce? && ops[i].found.Some?
    && forall j :: i < j < |ops| ==> !Replaces(ops[j], ops[i].hash)
  }

  /** Some later read came more than the time to live after announcement `i`. */
  ghost predicate DroppedSince(ops: seq<Op>, i: nat)
    requires i < |ops| && ops[i].Announce?
  {
    exists j :: i < j < |ops| && ops[j].Read? && ops[j].now - ops[i].now > ONLINE_TTL_SECS
  }

  lemma {:induction false} StandingStep(ops: seq<Op>, i: nat)
    requires ops != [] && i < |ops| - 1
    ensures var m := |ops| - 1;
            Standing(ops, i) <==> Standing(ops[..m], i) && !Replaces(ops[m], ops[i].hash)
  {
    var m := |ops| - 1;
    assert forall j :: 0 <= j < m ==> ops[..m][j] == ops[j];
    if Standing(ops[..m], i) && !Replaces(ops[m], ops[i].hash) {
      forall j | i < j < |ops| ensures !Replaces(ops[j], ops[i].hash) {
        assert j < m ==> !Replaces(ops[..m][j], ops[i].hash);
      }
    }
    if Standing(ops, i) {
      forall j | i < j < m ensures !Replaces(ops[..m][j], ops[..m][i].hash) {
        assert !Replaces(ops[j], ops[i].hash);
      }
    }
  }

  lemma {:induction false} DroppedStep(ops: seq<Op>, i: nat)
    requires ops != [] && i < |ops| - 1 && ops[i].Announce?
    ensures var m := |ops| - 1;
            DroppedSince(ops, i) <==> DroppedSince(ops[..m], i) || (ops[m].Read? && ops[m].now - ops[i].now > ONLINE_TTL_SECS)
  {
    var m := |ops| - 1;
    assert forall j :: 0 <= j < m ==> ops[..m][j] == ops[j];
    if DroppedSince(ops, i) {
      var j :| i < j < |ops| && ops[j].Read? && ops[j].now - ops[i].now > ONLINE_TTL_SECS;
      assert j < m ==> ops[..m][j].Read?;
    }
  }

  /** A standing announcement is what the marks hold for its hash. */
  lemma {:induction false} StandingIsMarked(ops: seq<Op>, i: nat)
    requires Standing(ops, i)
    ensures ops[i].hash in Marks(ops) && Marks(ops)[ops[i].hash] == Mark(EntryOf(ops[i]), !DroppedSince(ops, i))
    decreases |ops|
  {
    var m := |ops| - 1;
    if i < m {
      StandingStep(ops, i);
      DroppedStep(ops, i);
      StandingIsMarked(ops[..m], i);
    }
  }

  /** And every mark is that of a standing announcement. */
  lemma {:induction false} MarkedIsStanding(ops: seq<Op>, h: Hash) returns (i: nat)
    requires h in Marks(ops)
    ensures Standing(ops, i) && ops[i].hash == h
    decreases |ops|
  {
    var m := |ops| - 1;
    if Replaces(ops[m], h) {
      i := m;
    } else {
      i := MarkedIsStanding(ops[..m], h);
      StandingStep(ops, i);
    }
  }

  /** Every standing announcement of the last 35 seconds before `now` survived all reads since. */
  ghost predicate NothingLost(ops: seq<Op>, now: int) {
    forall i: nat :: Standing(ops, i) && now - ops[i].now <= ONLINE_TTL_SECS ==> !DroppedSince(ops, i)
  }

  /**
    A read returns the announcements of the last 35 seconds exactly when no earlier
    read, ahead of this one, came too late for one of them.
   */
  lemma {:induction false} WhenReadIsComplete(ops: seq<Op>, now: int)
    requires Filed(ops)
    ensures Represents(Vector(ops + [Read(now)]), Recent(Latest(ops), now)) <==> NothingLost(ops, now)
  {
    VectorAfterRead(ops, now);
    MarksMarkLatest(ops);
    var got, want := Recent(Kept(Marks(ops)), now), Recent(Latest(ops), now);
    if NothingLost(ops, now) {
      forall h | h in want ensures h in got && got[h] == want[h] {
        var i := MarkedIsStanding(ops, h);
        StandingIsMarked(ops, i);
      }
      assert got == want;
    } else {
      var i: nat :| Standing(ops, i) && now - ops[i].now <= ONLINE_TTL_SECS && DroppedSince(ops, i);
      StandingIsMarked(ops, i);
      assert ops[i].hash in want && ops[i].hash !in got;
      if Represents(Vector(ops + [Read(now)]), want) {
        RepresentsOne(Vector(ops + [Read(now)]), got, want);
      }
    }
  }

  /** The run so far has not gone past `now`. */
  ghost predicate Reached(ops: seq<Op>, now: int) {
    forall i :: 0 <= i < |ops| && ops[i].Read? ==> ops[i].now <= now
  }

  /** When no read has run ahead of the clock, every read returns exactly the announcements of the last 35 seconds. */
  lemma {:induction false} ReadReturnsRecent(ops: seq<Op>, now: int)
    requires Filed(ops) && Reached(ops, now)
    ensures Represents(Vector(ops + [Read(now)]), Recent(Latest(ops), now))
  {
    WhenReadIsComplete(ops, now);
    assert NothingLost(ops, now);
  }

  /** Entry by entry: such a read holds exactly the standing announcements at most 35 seconds old. */
  lemma {:induction false} ReadHoldsExactly(ops: seq<Op>, now: int, e: OnlinePeer)
    requires Filed(ops) && Reached(ops, now)
    ensures e in Vector(ops + [Read(now)]) <==> exists i: nat :: Standing(ops, i) && e == EntryOf(ops[i]) && now - ops[i].now <= 35
  {
    ReadReturnsRecent(ops, now);
    MarksMarkLatest(ops);
    var v, m := Vector(ops + [Read(now)]), Recent(Latest(ops), now);
    if e in v {
      var h := IdentityHash(e.keys);
      assert h in m && m[h] == e;
      var i := MarkedIsStanding(ops, h);
      StandingIsMarked(ops, i);
    }
    if i: nat :| Standing(ops, i) && e == EntryOf(ops[i]) && now - ops[i].now <= 35 {
      StandingIsMarked(ops, i);
      assert m[ops[i].hash] == e;
    }
  }

  /** A clock set back shows the difference: a read that ran ahead has dropped a peer that is current again. */
  lemma {:induction false} BackwardClockLosesPeers(h: Hash, keys: Identity)
    requires IdentityHash(keys) == h
    ensures var ops := [Announce(h, Some(keys), "", 0), Read(100)];
            !Represents(Vector(ops + [Read(10)]), Recent(Latest(ops), 10))
  {
    var ops := [Announce(h, Some(keys), "", 0), Read(100)];
    assert Standing(ops, 0);
    assert DroppedSince(ops, 0) by {
      assert ops[1].Read? && ops[1].now - ops[0].now > ONLINE_TTL_SECS;
    }
    WhenReadIsComplete(ops, 10);
  }

  // ---- The cache as an object ------------------------------------------------------------

  class Cache {
    var peers: seq<OnlinePeer>

    constructor ()
      ensures peers == []
    {
      peers := [];
    }

    method LoadOnlinePeers(now: int) returns (r: seq<OnlinePeer>)
      modifies this
      ensures peers == Prune(old(peers), now) && r == peers
    {
      var kept := [];
      for n := 0 to |peers|
        invariant peers == old(peers) && kept == Prune(peers[..n], now)
      {
        assert peers[..n + 1][..n] == peers[..n];
        if now - peers[n].lastSeen <= ONLINE_TTL_SECS {
          kept := kept + [peers[n]];
        }
      }
      assert peers[..|peers|] == peers;
      peers := kept;
      r := peers;
    }

    method AppendOnlinePeer(h: Hash, found: Option<Identity>, address: string, now: int) returns (r: Result<(), ()>)
      modifies this
      ensures peers == AppendPeer(old(peers), h, found, address, now)
      ensures r.Ok? <==> found.Some?
    {
      if found.None? {
        return Err(());
      }
      var i := 0;
      while i < |peers| && IdentityHash(peers[i].keys) != h
        invariant i <= |peers| && peers == old(peers)
        invariant forall k :: 0 <= k < i ==> IdentityHash(peers[k].keys) != h
      {
        i := i + 1;
      }
      FindIsFirst(peers, h, i);
      if i < |peers| {
        peers := peers[i := peers[i].(address := address, lastSeen := now)];
      } else {
        peers := peers + [OnlinePeer(found.value, address, now)];
      }
      r := Ok(());
    }

    method RemoveOnlinePeer(h: Hash)
      modifies this
      ensures peers == Without(old(peers), h)
    {
      var kept := [];
      for n := 0 to |peers|
        invariant peers == old(peers) && kept == Without(peers[..n], h)
      {
        assert peers[..n + 1][..n] == peers[..n];
        if IdentityHash(peers[n].keys) != h {
          kept := kept + [peers[n]];
        }
      }
      assert peers[..|peers|] == peers;
      peers := kept;
    }
  }

  /** A linear scan stopping at the first match computes `Find`. */
  lemma {:induction false} FindIsFirst(peers: seq<OnlinePeer>, h: Hash, i: nat)
    requires i <= |peers| && forall k :: 0 <= k < i ==> IdentityHash(peers[k].keys) != h
    requires i < |peers| ==> IdentityHash(peers[i].keys) == h
    ensures Find(peers, h) == if i < |peers| then i else -1
    decreases i
  {
    if 0 < i < |peers| {
      FindIsFirst(peers[1..], h, i - 1);
    }
  }
}
