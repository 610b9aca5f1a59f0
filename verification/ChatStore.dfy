/**
  One conversation's store (crates/crypto): an ordered database under big-endian
  counter keys, equal in effect to an append-only log.
 */
module ChatStore {
  import opened Common
  import opened Bytes
  import opened Crypto
  import opened OrderedDb

  type Store = Db<Data>

  datatype StoreError = CorruptedKey | CounterOverflow

  /** One more than the last key; 0 in an empty store. */
  function FindCounter(db: Store): Result<nat, StoreError> {
    if db == [] then Ok(0) else
    var key := db[|db| - 1].key;
    if |key| != 8 then Err(CorruptedKey)
    else if FromBigEndian(key) >= U64_MAX then Err(CounterOverflow)
    else Ok(FromBigEndian(key) + 1)
  }

  function InsertValue(db: Store, value: Data): Result<Store, StoreError> {
    match FindCounter(db)
    case Err(e) => Err(e)
    case Ok(counter) => Ok(OrderedDb.Insert(db, BE64(counter), value))
  }

  function InsertMessage(db: Store, msg: Message, key: Key, nonce: Nonce): Result<Store, StoreError> {
    InsertValue(db, EncryptMessageStored(msg, key, nonce))
  }

  /** How a holder of the storage key reads stored values. */
  function Reader(key: Key): Data -> Option<Message> {
    (v: Data) => DecodeStored(v, key)
  }

  // ---- The store's shape -----------------------------------------------------------

  /** Keys are big-endian numbers below `bound`, strictly increasing. */
  ghost predicate Numbered(db: Store, bound: nat) {
    && bound <= U64_MAX + 1
    && (forall i :: 0 <= i < |db| ==> IsNumberKey(db[i].key, bound))
    && (forall i, j :: 0 <= i < j < |db| ==> FromBigEndian(db[i].key) < FromBigEndian(db[j].key))
  }

  predicate IsNumberKey(key: seq<byte>, bound: nat)
    requires bound <= U64_MAX + 1
  {
    |key| == 8 && FromBigEndian(key) < bound && key == BE64(FromBigEndian(key))
  }

  /** The next number is above every key and never collides: an insert is an append. */
  lemma {:induction false} InsertIsAppend(db: Store, bound: nat, value: Data) returns (counter: nat)
    requires Numbered(db, bound) && bound <= U64_MAX
    ensures counter <= bound && InsertValue(db, value) == Ok(db + [Entry(BE64(counter), value)])
    ensures db == [] ==> counter == 0
    ensures db != [] ==> db[|db| - 1].key == BE64(FromBigEndian(db[|db| - 1].key)) && counter == FromBigEndian(db[|db| - 1].key) + 1
    ensures Numbered(db + [Entry(BE64(counter), value)], bound + 1)
  {
    counter := if db == [] then 0 else FromBigEndian(db[|db| - 1].key) + 1;
    if db != [] {
      assert IsNumberKey(db[|db| - 1].key, bound);
    }
    forall i | 0 <= i < |db|
      ensures LexLess(db[i].key, BE64(counter)) && FromBigEndian(db[i].key) < counter && IsNumberKey(db[i].key, bound + 1)
    {
      assert IsNumberKey(db[i].key, bound);
      BE64Order(FromBigEndian(db[i].key), counter);
    }
    InsertAboveAppends(db, BE64(counter), value);
    BE64Order(counter, counter);
  }

  /** On any store whatever, an insert fails exactly when the last key is not eight bytes long or is the largest of them. */
  lemma {:induction false} WhenInsertFails(db: Store, value: Data)
    ensures InsertValue(db, value) == Err(CorruptedKey) <==> db != [] && |db[|db| - 1].key| != 8
    ensures InsertValue(db, value) == Err(CounterOverflow) <==> db != [] && |db[|db| - 1].key| == 8 && FromBigEndian(db[|db| - 1].key) >= U64_MAX
    ensures InsertValue(db, value).Ok? ==> Entry(BE64(if db == [] then 0 else FromBigEndian(db[|db| - 1].key) + 1), value) in InsertValue(db, value).value
  {
    if InsertValue(db, value).Ok? {
      InsertPuts(db, BE64(FindCounter(db).value), value);
    }
  }

  lemma {:induction false} ReadableIsNumbered(db: Store, read: Data -> Option<Message>, bound: nat)
    requires Numbered(db, bound)
    ensures Numbered(Readable(db, read), bound)
    decreases |db|
  {
    if db != [] {
      var m := |db| - 1;
      var pre, e := db[..m], db[m];
      assert Numbered(pre, bound);
      ReadableIsNumbered(pre, read, bound);
      ReadableIsPart(pre, read);
      var kept := Readable(pre, read);
      assert IsNumberKey(e.key, bound);
      forall i | 0 <= i < |kept| ensures FromBigEndian(kept[i].key) < FromBigEndian(e.key) {
        assert kept[i] in pre;
      }
    }
  }

  // ---- Runs --------------------------------------------------------------------------

  datatype Op = InsertMsg(msg: Message, nonce: Nonce) | InsertBlob(value: Data) | Load | Wipe

  function Apply(db: Store, op: Op, key: Key): Result<Store, StoreError> {
    match op
    case InsertMsg(msg, nonce) => InsertMessage(db, msg, key, nonce)
    case InsertBlob(value) => InsertValue(db, value)
    case Load => Ok(Readable(db, Reader(key)))
    case Wipe => Ok([])
  }

  function Run(ops: seq<Op>, key: Key): Result<Store, StoreError> {
    if ops == [] then Ok([])
    else match Run(ops[..|ops| - 1], key)
         case Err(e) => Err(e)
         case Ok(db) => Apply(db, ops[|ops| - 1], key)
  }

  /** The abstract store: everything ever inserted since the last purge, in order. */
  function Log(ops: seq<Op>, key: Key): seq<Data> {
    if ops == [] then [] else LogStep(Log(ops[..|ops| - 1], key), ops[|ops| - 1], key)
  }

  function LogStep(before: seq<Data>, op: Op, key: Key): seq<Data> {
    match op
    case InsertMsg(msg, nonce) => before + [EncryptMessageStored(msg, key, nonce)]
    case InsertBlob(value) => before + [value]
    case Load => before
    case Wipe => []
  }

  lemma {:induction false} InsertRefines(db: Store, n: nat, value: Data, log: seq<Data>, read: Data -> Option<Message>)
    requires Numbered(db, n) && n <= U64_MAX && History(db, read) == Decoded(log, read)
    ensures InsertValue(db, value).Ok? && Numbered(InsertValue(db, value).value, n + 1)
    ensures History(InsertValue(db, value).value, read) == Decoded(log + [value], read)
  {
    var counter := InsertIsAppend(db, n, value);
    AppendExtendsHistory(db, Entry(BE64(counter), value), read);
    DecodedAppend(log, value, read);
  }

  /**
    The store refines the log: after any interleaving of inserts, blob inserts,
    loads and purges, of any length the 64-bit counter can number, nothing has
    failed and the history is what the log reads as.
   */
  lemma {:induction false} StoreRefinesLog(ops: seq<Op>, key: Key)
    requires |ops| <= U64_MAX + 1
    ensures Run(ops, key).Ok? && Numbered(Run(ops, key).value, |ops|)
    ensures History(Run(ops, key).value, Reader(key)) == Decoded(Log(ops, key), Reader(key))
    decreases |ops|
  {
    if ops != [] {
      var n := |ops| - 1;
      StoreRefinesLog(ops[..n], key);
      StepRefines(Run(ops[..n], key).value, n, ops[n], Log(ops[..n], key), key);
    }
  }

  lemma {:induction false} StepRefines(db: Store, n: nat, op: Op, log: seq<Data>, key: Key)
    requires Numbered(db, n) && n <= U64_MAX && History(db, Reader(key)) == Decoded(log, Reader(key))
    ensures Apply(db, op, key).Ok? && Numbered(Apply(db, op, key).value, n + 1)
    ensures History(Apply(db, op, key).value, Reader(key)) == Decoded(LogStep(log, op, key), Reader(key))
  {
    var read := Reader(key);
    match op
    case InsertMsg(msg, nonce) => InsertRefines(db, n, EncryptMessageStored(msg, key, nonce), log, read);
    case InsertBlob(value) => InsertRefines(db, n, value, log, read);
    case Load =>
      ReadableKeepsHistory(db, read);
      ReadableIsNumbered(db, read, n);
      NumberedMonotone(Readable(db, read), n);
    case Wipe =>
  }

  lemma {:induction false} NumberedMonotone(db: Store, n: nat)
    requires Numbered(db, n) && n <= U64_MAX
    ensures Numbered(db, n + 1)
  {
    forall i | 0 <= i < |db| ensures IsNumberKey(db[i].key, n + 1) {
      assert IsNumberKey(db[i].key, n);
    }
  }

  /** Each insert of a message adds exactly that message to the history. */
  lemma {:induction false} InsertedMessageIsRead(ops: seq<Op>, key: Key, msg: Message, nonce: Nonce)
    requires |ops| <= U64_MAX
    ensures Run(ops, key).Ok? && Run(ops + [InsertMsg(msg, nonce)], key).Ok?
    ensures History(Run(ops + [InsertMsg(msg, nonce)], key).value, Reader(key)) ==
            History(Run(ops, key).value, Reader(key)) + [msg]
  {
    var all := ops + [InsertMsg(msg, nonce)];
    assert all[..|ops|] == ops;
    StoreRefinesLog(all, key);
    StoreRefinesLog(ops, key);
    DecodedAppend(Log(ops, key), EncryptMessageStored(msg, key, nonce), Reader(key));
    StoredRoundTrip(msg, key, nonce, key);
  }

  // ---- The store as an object -----------------------------------------------------------

  class ChatDb {
    var entries: Store

    ghost predicate Valid()
      reads this
    {
      Sorted(entries)
    }

    constructor ()
      ensures Valid() && entries == []
    {
      entries := [];
    }

    method InsertBlobToChat(value: Data) returns (r: Result<(), StoreError>)
      requires Valid()
      modifies this
      ensures Valid()
      ensures match InsertValue(old(entries), value)
              case Ok(db) => r == Ok(()) && entries == db
              case Err(e) => r == Err(e) && entries == old(entries)
    {
      match FindCounter(entries)
      case Err(e) => r := Err(e);
      case Ok(counter) =>
        InsertKeepsSorted(entries, BE64(counter), value);
        entries := OrderedDb.Insert(entries, BE64(counter), value);
        r := Ok(());
    }

    method InsertMessageStored(msg: Message, key: Key, nonce: Nonce) returns (r: Result<(), StoreError>)
      requires Valid()
      modifies this
      ensures Valid()
      ensures match InsertMessage(old(entries), msg, key, nonce)
              case Ok(db) => r == Ok(()) && entries == db
              case Err(e) => r == Err(e) && entries == old(entries)
    {
      r := InsertBlobToChat(EncryptMessageStored(msg, key, nonce));
    }

    /** First pass: collect the messages and the keys to drop. Second pass: drop them one by one. */
    method LoadMessages(key: Key) returns (messages: seq<Message>)
      requires Valid()
      modifies this
      ensures Valid()
      ensures messages == History(old(entries), Reader(key))
      ensures entries == Readable(old(entries), Reader(key))
    {
      var read := Reader(key);
      var toRemove: seq<seq<byte>>;
      messages, toRemove := Sift(read);
      ghost var all := entries;
      for r := 0 to |toRemove|
        invariant entries == RemoveKeys(all, toRemove[..r])
      {
        assert toRemove[..r + 1][..r] == toRemove[..r];
        entries := Remove(entries, toRemove[r]);
      }
      assert toRemove[..|toRemove|] == toRemove;
      RemovingUnreadable(all, read);
      ReadableIsSorted(all, read);
    }

    method Sift(read: Data -> Option<Message>) returns (messages: seq<Message>, toRemove: seq<seq<byte>>)
      ensures messages == History(entries, read)
      ensures toRemove == UnreadableKeys(entries, read)
    {
      messages, toRemove := [], [];
      for n := 0 to |entries|
        invariant messages == History(entries[..n], read)
        invariant toRemove == UnreadableKeys(entries[..n], read)
      {
        assert entries[..n + 1] == entries[..n] + [entries[n]];
        AppendExtendsHistory(entries[..n], entries[n], read);
        match read(entries[n].value)
        case Some(m) => messages := messages + [m];
        case None => toRemove := toRemove + [entries[n].key];
      }
      assert entries[..|entries|] == entries;
    }

    method PurgeChat()
      modifies this
      ensures Valid() && entries == []
      ensures forall key :: History(entries, Reader(key)) == []
    {
      entries := [];
    }
  }
}
