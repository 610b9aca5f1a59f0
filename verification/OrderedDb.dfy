/** An ordered byte-keyed database: entries in strict key order, as `sled` keeps them. */
module OrderedDb {
  import opened Common
  import opened Bytes

  datatype Entry<V> = Entry(key: seq<byte>, value: V)

  type Db<V> = seq<Entry<V>>

  /** Put a value under a key: replace an equal key, else keep byte order. */
  function Insert<V>(db: Db<V>, key: seq<byte>, value: V): Db<V> {
    if db == [] then [Entry(key, value)]
    else if db[0].key == key then [Entry(key, value)] + db[1..]
    else if LexLess(key, db[0].key) then [Entry(key, value)] + db
    else [db[0]] + Insert(db[1..], key, value)
  }

  function Remove<V>(db: Db<V>, key: seq<byte>): Db<V> {
    if db == [] then []
    else if db[0].key == key then Remove(db[1..], key)
    else [db[0]] + Remove(db[1..], key)
  }

  ghost predicate Sorted<V>(db: Db<V>) {
    forall i, j :: 0 <= i < j < |db| ==> LexLess(db[i].key, db[j].key)
  }

  ghost predicate AllAbove<V>(db: Db<V>, key: seq<byte>) {
    forall i :: 0 <= i < |db| ==> LexLess(key, db[i].key)
  }

  lemma {:induction false} SortedCons<V>(e: Entry<V>, db: Db<V>)
    requires Sorted(db) && AllAbove(db, e.key)
    ensures Sorted([e] + db)
  {
  }

  lemma {:induction false} InsertKeepsBound<V>(db: Db<V>, key: seq<byte>, value: V, low: seq<byte>)
    requires AllAbove(db, low) && LexLess(low, key)
    ensures AllAbove(Insert(db, key, value), low)
    decreases |db|
  {
    if db != [] {
      InsertKeepsBound(db[1..], key, value, low);
    }
  }

  /** Inserting keeps the order, wherever the key falls. */
  lemma {:induction false} InsertKeepsSorted<V>(db: Db<V>, key: seq<byte>, value: V)
    requires Sorted(db)
    ensures Sorted(Insert(db, key, value))
    decreases |db|
  {
    if db != [] {
      var head, rest := db[0], db[1..];
      assert AllAbove(rest, head.key);
      if head.key == key {
        SortedCons(Entry(key, value), rest);
      } else if LexLess(key, head.key) {
        forall j | 0 <= j < |db| ensures LexLess(key, db[j].key) {
          if j > 0 {
            LexTransitive(key, head.key, db[j].key);
          }
        }
        SortedCons(Entry(key, value), db);
      } else {
        LexTotal(key, head.key);
        InsertKeepsSorted(rest, key, value);
        InsertKeepsBound(rest, key, value, head.key);
        SortedCons(head, Insert(rest, key, value));
      }
    }
  }

  lemma {:induction false} InsertPuts<V>(db: Db<V>, key: seq<byte>, value: V)
    ensures Entry(key, value) in Insert(db, key, value)
    decreases |db|
  {
    if db != [] {
      InsertPuts(db[1..], key, value);
    }
  }

  /** Inserting changes what is under its own key and nothing else. */
  lemma {:induction false} InsertHolds<V>(db: Db<V>, key: seq<byte>, value: V, e: Entry<V>)
    requires Sorted(db)
    ensures e in Insert(db, key, value) <==> e == Entry(key, value) || (e in db && e.key != key)
    decreases |db|
  {
    if db != [] {
      var head, rest := db[0], db[1..];
      assert db == [head] + rest;
      assert AllAbove(rest, head.key);
      if head.key == key || LexLess(key, head.key) {
        KeyIsBelow(rest, head.key, key);
      } else {
        InsertHolds(rest, key, value, e);
      }
    }
  }

  /** Above a head that is not below `key`, `key` does not occur. */
  lemma {:induction false} KeyIsBelow<V>(rest: Db<V>, head: seq<byte>, key: seq<byte>)
    requires AllAbove(rest, head) && (key == head || LexLess(key, head))
    ensures forall i :: 0 <= i < |rest| ==> rest[i].key != key
    ensures key != head ==> !LexLess(head, key)
  {
    LexIrreflexive(key);
    forall i | 0 <= i < |rest| ensures rest[i].key != key {
      if rest[i].key == key && key != head {
        LexTransitive(key, head, key);
      }
    }
    if key != head {
      LexTotal(key, head);
    }
  }

  /** Removing takes away what is under its key and nothing else. */
  lemma {:induction false} RemoveHolds<V>(db: Db<V>, key: seq<byte>, e: Entry<V>)
    ensures e in Remove(db, key) <==> e in db && e.key != key
    decreases |db|
  {
    if db != [] {
      assert db == [db[0]] + db[1..];
      RemoveHolds(db[1..], key, e);
    }
  }

  /** A key above every other goes to the end. */
  lemma {:induction false} InsertAboveAppends<V>(db: Db<V>, key: seq<byte>, value: V)
    requires forall i :: 0 <= i < |db| ==> LexLess(db[i].key, key)
    ensures Insert(db, key, value) == db + [Entry(key, value)]
    decreases |db|
  {
    if db != [] {
      LexIrreflexive(key);
      if LexLess(key, db[0].key) {
        LexTransitive(key, db[0].key, key);
      }
      InsertAboveAppends(db[1..], key, value);
      assert db == [db[0]] + db[1..];
    }
  }

  lemma {:induction false} RemoveAbsent<V>(db: Db<V>, key: seq<byte>)
    requires forall i :: 0 <= i < |db| ==> db[i].key != key
    ensures Remove(db, key) == db
    decreases |db|
  {
    if db != [] {
      RemoveAbsent(db[1..], key);
      assert db == [db[0]] + db[1..];
    }
  }

  lemma {:induction false} RemoveAt<V>(a: Db<V>, e: Entry<V>, b: Db<V>)
    requires forall i :: 0 <= i < |a| ==> a[i].key != e.key
    requires forall i :: 0 <= i < |b| ==> b[i].key != e.key
    ensures Remove(a + [e] + b, e.key) == a + b
    decreases |a|
  {
    var all := a + [e] + b;
    if a == [] {
      assert all[1..] == b && a + b == b;
      RemoveAbsent(b, e.key);
    } else {
      assert all[1..] == a[1..] + [e] + b;
      RemoveAt(a[1..], e, b);
      assert a + b == [a[0]] + (a[1..] + b);
    }
  }

  lemma {:induction false} KeysDiffer<V>(db: Db<V>, i: nat, j: nat)
    requires Sorted(db) && i < |db| && j < |db| && i != j
    ensures db[i].key != db[j].key
  {
    LexIrreflexive(db[i].key);
    assert i < j ==> LexLess(db[i].key, db[j].key);
  }

  // ---- Reading through a partial decoder ---------------------------------------

  function Singleton<M>(o: Option<M>): seq<M> {
    if o.Some? then [o.value] else []
  }

  /** What a decoder reads out of a list of values, in order. */
  function Decoded<V, M>(values: seq<V>, read: V -> Option<M>): seq<M> {
    if values == [] then []
    else Decoded(values[..|values| - 1], read) + Singleton(read(values[|values| - 1]))
  }

  function Values<V>(db: Db<V>): (vs: seq<V>)
    ensures |vs| == |db|
    ensures forall i :: 0 <= i < |db| ==> vs[i] == db[i].value
  {
    seq(|db|, i requires 0 <= i < |db| => db[i].value)
  }

  function History<V, M>(db: Db<V>, read: V -> Option<M>): seq<M> {
    Decoded(Values(db), read)
  }

  /** The entries the decoder can read. */
  function Readable<V, M>(db: Db<V>, read: V -> Option<M>): Db<V> {
    if db == [] then []
    else Readable(db[..|db| - 1], read) + if read(db[|db| - 1].value).Some? then [db[|db| - 1]] else []
  }

  function UnreadableKeys<V, M>(db: Db<V>, read: V -> Option<M>): seq<seq<byte>> {
    if db == [] then []
    else UnreadableKeys(db[..|db| - 1], read) + if read(db[|db| - 1].value).None? then [db[|db| - 1].key] else []
  }

  function RemoveKeys<V>(db: Db<V>, keys: seq<seq<byte>>): Db<V> {
    if keys == [] then db else Remove(RemoveKeys(db, keys[..|keys| - 1]), keys[|keys| - 1])
  }

  lemma {:induction false} DecodedAppend<V, M>(values: seq<V>, v: V, read: V -> Option<M>)
    ensures Decoded(values + [v], read) == Decoded(values, read) + Singleton(read(v))
  {
    assert (values + [v])[..|values|] == values;
  }

  /** Appending a value extends the history by what the value reads as. */
  lemma {:induction false} AppendExtendsHistory<V, M>(db: Db<V>, e: Entry<V>, read: V -> Option<M>)
    ensures History(db + [e], read) == History(db, read) + Singleton(read(e.value))
  {
    assert Values(db + [e]) == Values(db) + [e.value];
    DecodedAppend(Values(db), e.value, read);
  }

  lemma {:induction false} ReadableKeepsHistory<V, M>(db: Db<V>, read: V -> Option<M>)
    ensures History(Readable(db, read), read) == History(db, read)
    decreases |db|
  {
    if db != [] {
      var m := |db| - 1;
      var pre, e := db[..m], db[m];
      ReadableKeepsHistory(pre, read);
      assert db == pre + [e];
      AppendExtendsHistory(pre, e, read);
      if read(e.value).Some? {
        AppendExtendsHistory(Readable(pre, read), e, read);
      } else {
        assert Readable(pre, read) + [] == Readable(pre, read);
        assert History(pre, read) + [] == History(pre, read);
      }
    }
  }

  lemma {:induction false} ReadableIsPart<V, M>(db: Db<V>, read: V -> Option<M>)
    ensures forall e :: e in Readable(db, read) ==> e in db
    decreases |db|
  {
    if db != [] {
      ReadableIsPart(db[..|db| - 1], read);
    }
  }

  lemma {:induction false} ReadableIsSorted<V, M>(db: Db<V>, read: V -> Option<M>)
    requires Sorted(db)
    ensures Sorted(Readable(db, read))
    decreases |db|
  {
    if db != [] {
      var m := |db| - 1;
      ReadableIsSorted(db[..m], read);
      ReadableIsPart(db[..m], read);
      var kept := Readable(db[..m], read);
      forall i | 0 <= i < |kept| ensures LexLess(kept[i].key, db[m].key) {
        assert kept[i] in db[..m];
      }
    }
  }

  lemma {:induction false} RemovingOne<V, M>(pre: Db<V>, e: Entry<V>, after: Db<V>, read: V -> Option<M>)
    requires Sorted(pre + ([e] + after))
    ensures Remove(Readable(pre, read) + [e] + after, e.key) == Readable(pre, read) + after
  {
    var db, n := pre + ([e] + after), |pre|;
    var kept := Readable(pre, read);
    ReadableIsPart(pre, read);
    forall i | 0 <= i < |kept| ensures kept[i].key != e.key {
      assert kept[i] in pre;
      var j :| 0 <= j < n && pre[j] == kept[i];
      KeysDiffer(db, j, n);
    }
    forall i | 0 <= i < |after| ensures after[i].key != e.key {
      assert db[n + 1 + i] == after[i];
      KeysDiffer(db, n + 1 + i, n);
    }
    RemoveAt(kept, e, after);
  }

  lemma {:induction false} SplitsAppend<V, M>(db: Db<V>, e: Entry<V>, read: V -> Option<M>)
    ensures Readable(db + [e], read) == Readable(db, read) + if read(e.value).Some? then [e] else []
    ensures UnreadableKeys(db + [e], read) == UnreadableKeys(db, read) + if read(e.value).None? then [e.key] else []
  {
    assert (db + [e])[..|db|] == db;
  }

  lemma {:induction false} RemoveKeysAppend<V>(db: Db<V>, keys: seq<seq<byte>>, key: seq<byte>)
    ensures RemoveKeys(db, keys + [key]) == Remove(RemoveKeys(db, keys), key)
  {
    assert (keys + [key])[..|keys|] == keys;
  }

  lemma {:induction false} RemovingStep<V, M>(db: Db<V>, read: V -> Option<M>, pre: Db<V>, e: Entry<V>, after: Db<V>)
    requires RemoveKeys(db, UnreadableKeys(pre, read)) == Readable(pre, read) + ([e] + after)
    requires Remove(Readable(pre, read) + [e] + after, e.key) == Readable(pre, read) + after
    ensures RemoveKeys(db, UnreadableKeys(pre + [e], read)) == Readable(pre + [e], read) + after
  {
    SplitsAppend(pre, e, read);
    var kept, keys := Readable(pre, read), UnreadableKeys(pre, read);
    assert kept + ([e] + after) == kept + [e] + after;
    if read(e.value).None? {
      RemoveKeysAppend(db, keys, e.key);
      assert kept + [] == kept;
    } else {
      assert keys + [] == keys;
    }
  }

  lemma {:induction false} RemovingParts<V, M>(pre: Db<V>, after: Db<V>, read: V -> Option<M>)
    requires Sorted(pre + after)
    ensures RemoveKeys(pre + after, UnreadableKeys(pre, read)) == Readable(pre, read) + after
    decreases |pre|
  {
    if pre == [] {
      assert UnreadableKeys(pre, read) == [];
    } else {
      var init, e := pre[..|pre| - 1], pre[|pre| - 1];
      assert pre == init + [e];
      assert pre + after == init + ([e] + after);
      RemovingParts(init, [e] + after, read);
      RemovingOne(init, e, after, read);
      RemovingStep(pre + after, read, init, e, after);
    }
  }

  /** Removing the unreadable keys one at a time leaves exactly the readable entries. */
  lemma {:induction false} RemovingUnreadable<V, M>(db: Db<V>, read: V -> Option<M>)
    requires Sorted(db)
    ensures RemoveKeys(db, UnreadableKeys(db, read)) == Readable(db, read)
  {
    assert db + [] == db;
    RemovingParts(db, [], read);
  }
}
