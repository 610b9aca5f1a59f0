/**
  The receiver's replay filter on its own: what each received frame amounts to
  for one receiver, and which of those chat frames a high-water counter lets
  through.
 */
module HighWater {
  import opened Bytes

  /** An authentic, fresh, decryptable chat frame. */
  datatype Chat = Chat(counter: i64, text: string, timestamp: i64)

  /** What a frame amounts to: an authentic fresh End, an opened chat, or nothing. */
  datatype Seen = Nothing | EndSeen | ChatSeen(chat: Chat)

  datatype Receiving = Receiving(last: int, delivered: seq<Chat>, running: bool)

  const Start: Receiving := Receiving(-1, [], true)

  function Take(r: Receiving, s: Seen): Receiving {
    if !r.running then r else
    match s
    case Nothing => r
    case EndSeen => r.(running := false)
    case ChatSeen(c) => if c.counter <= r.last then r else Receiving(c.counter, r.delivered + [c], true)
  }

  function TakeAll(seen: seq<Seen>): Receiving {
    if seen == [] then Start else Take(TakeAll(seen[..|seen| - 1]), seen[|seen| - 1])
  }

  // What the filter is for, said without its state: a chat is a record when no
  // End came before it and its counter exceeds -1 and every earlier chat's.

  ghost predicate IsRecord(seen: seq<Seen>, i: nat)
    requires i < |seen|
  {
    && seen[i].ChatSeen?
    && seen[i].chat.counter > -1
    && (forall k :: 0 <= k < i ==> !seen[k].EndSeen?)
    && (forall k :: 0 <= k < i && seen[k].ChatSeen? ==> seen[k].chat.counter < seen[i].chat.counter)
  }

  ghost function Records(seen: seq<Seen>, n: nat): seq<Chat>
    requires n <= |seen|
  {
    if n == 0 then []
    else Records(seen, n - 1) + if IsRecord(seen, n - 1) then [seen[n - 1].chat] else []
  }

  lemma {:induction false} RecordsOfPrefix(seen: seq<Seen>, m: nat, n: nat)
    requires n <= m <= |seen|
    ensures Records(seen[..m], n) == Records(seen, n)
    decreases n
  {
    if n > 0 {
      RecordsOfPrefix(seen, m, n - 1);
      assert forall k :: 0 <= k < n ==> seen[..m][k] == seen[k];
    }
  }

  /** `last` is the largest chat counter seen, or -1 if none reached 0. */
  ghost predicate IsHighWater(seen: seq<Seen>, last: int) {
    && last >= -1
    && (forall k :: 0 <= k < |seen| && seen[k].ChatSeen? ==> seen[k].chat.counter <= last)
    && (last > -1 ==> exists k :: 0 <= k < |seen| && seen[k].ChatSeen? && seen[k].chat.counter == last)
  }

  ghost predicate NoEnd(seen: seq<Seen>) {
    forall k :: 0 <= k < |seen| ==> !seen[k].EndSeen?
  }

  /** The filter delivers exactly the records, runs exactly until the first End and keeps the maximum. */
  lemma {:induction false} DeliversExactlyRecords(seen: seq<Seen>)
    ensures TakeAll(seen).delivered == Records(seen, |seen|)
    ensures TakeAll(seen).running <==> NoEnd(seen)
    ensures TakeAll(seen).running ==> IsHighWater(seen, TakeAll(seen).last)
    decreases |seen|
  {
    if seen != [] {
      var n := |seen| - 1;
      var pre := seen[..n];
      DeliversExactlyRecords(pre);
      RecordsOfPrefix(seen, n, n);
      assert forall k :: 0 <= k < n ==> pre[k] == seen[k];
      var before := TakeAll(pre);
      if before.running {
        KeepsHighWater(seen, before.last);
      } else {
        var k :| 0 <= k < n && pre[k].EndSeen?;
        assert seen[k].EndSeen?;
      }
    }
  }

  lemma {:induction false} KeepsHighWater(seen: seq<Seen>, last: int)
    requires seen != [] && NoEnd(seen[..|seen| - 1]) && IsHighWater(seen[..|seen| - 1], last)
    ensures var n := |seen| - 1;
            && (IsRecord(seen, n) <==> seen[n].ChatSeen? && seen[n].chat.counter > last)
            && IsHighWater(seen, if IsRecord(seen, n) then seen[n].chat.counter else last)
  {
    var n := |seen| - 1;
    var pre := seen[..n];
    assert forall k :: 0 <= k < n ==> pre[k] == seen[k];
    if last > -1 {
      var k :| 0 <= k < n && pre[k].ChatSeen? && pre[k].chat.counter == last;
      assert seen[k].ChatSeen? && seen[k].chat.counter == last;
    }
    if seen[n].ChatSeen? {
      assert seen[n].chat.counter == seen[n].chat.counter;
    }
  }

  /** What does not move the filter when it arrives could as well not have arrived. */
  lemma {:induction false} DroppingIdle(before: seq<Seen>, s: Seen, after: seq<Seen>)
    requires Take(TakeAll(before), s) == TakeAll(before)
    ensures TakeAll(before + [s] + after) == TakeAll(before + after)
    decreases |after|
  {
    var all := before + [s];
    if after == [] {
      assert all + after == all && before + after == before && all[..|before|] == before;
    } else {
      var m := |after| - 1;
      DroppingIdle(before, s, after[..m]);
      assert (all + after)[..|all + after| - 1] == all + after[..m];
      assert (before + after)[..|before + after| - 1] == before + after[..m];
    }
  }

  /** Something that neither delivers nor ends could as well not have arrived. */
  lemma {:induction false} DroppingRejected(before: seq<Seen>, s: Seen, after: seq<Seen>)
    requires !IsRecord(before + [s], |before|) && !s.EndSeen?
    ensures TakeAll(before + [s] + after) == TakeAll(before + after)
  {
    var all := before + [s];
    assert all[..|before|] == before;
    DeliversExactlyRecords(before);
    if TakeAll(before).running {
      KeepsHighWater(all, TakeAll(before).last);
    }
    DroppingIdle(before, s, after);
  }

  /** A stopped filter stays stopped. */
  lemma {:induction false} StaysStopped(seen: seq<Seen>, n: nat)
    requires n <= |seen|
    requires n < |seen| ==> !TakeAll(seen[..n]).running
    ensures TakeAll(seen) == TakeAll(seen[..n])
    decreases |seen|
  {
    if n == |seen| {
      assert seen[..n] == seen;
    } else {
      var m := |seen| - 1;
      assert seen[..m][..n] == seen[..n];
      StaysStopped(seen[..m], n);
    }
  }

  // ---- Loss-free streams ------------------------------------------------------

  /** The highest chat number among the first `n`, 0 if none. */
  function Highest(seen: seq<Seen>, n: nat): nat
    requires n <= |seen|
  {
    if n == 0 then 0 else
    var h := Highest(seen, n - 1);
    if seen[n - 1].ChatSeen? && seen[n - 1].chat.counter > h then seen[n - 1].chat.counter else h
  }

  /** Every chat carries its own numbered text, and is a repeat or the very next one. */
  predicate InOrderAt(texts: seq<string>, seen: seq<Seen>, i: nat)
    requires i < |seen|
  {
    && !seen[i].EndSeen?
    && (seen[i].ChatSeen? ==>
          && 1 <= seen[i].chat.counter <= |texts|
          && seen[i].chat.counter <= Highest(seen, i) + 1
          && seen[i].chat.text == texts[seen[i].chat.counter - 1])
  }

  ghost predicate InOrderStream(texts: seq<string>, seen: seq<Seen>) {
    forall i :: 0 <= i < |seen| ==> InOrderAt(texts, seen, i)
  }

  function Texts(cs: seq<Chat>): (ts: seq<string>)
    ensures |ts| == |cs|
    ensures forall i :: 0 <= i < |cs| ==> ts[i] == cs[i].text
  {
    seq(|cs|, i requires 0 <= i < |cs| => cs[i].text)
  }

  lemma {:induction false} TextsAppend(cs: seq<Chat>, c: Chat)
    ensures Texts(cs + [c]) == Texts(cs) + [c.text]
  {
  }

  /** Duplicates and junk mixed in freely: every text up to the highest number seen is delivered, once, in order. */
  lemma {:induction false} InOrderStreamDeliversAll(texts: seq<string>, seen: seq<Seen>, n: nat)
    requires n <= |seen| && InOrderStream(texts, seen)
    ensures Highest(seen, n) <= |texts|
    ensures Texts(TakeAll(seen[..n]).delivered) == texts[..Highest(seen, n)]
    ensures TakeAll(seen[..n]).running
    ensures TakeAll(seen[..n]).last == if Highest(seen, n) == 0 then -1 else Highest(seen, n)
    decreases n
  {
    if n > 0 {
      InOrderStreamDeliversAll(texts, seen, n - 1);
      assert seen[..n][..n - 1] == seen[..n - 1];
      assert InOrderAt(texts, seen, n - 1);
      TakesNext(texts, TakeAll(seen[..n - 1]), Highest(seen, n - 1), seen[n - 1]);
    }
  }

  lemma {:induction false} TakesNext(texts: seq<string>, r: Receiving, h: nat, s: Seen)
    requires h <= |texts| && Texts(r.delivered) == texts[..h]
    requires r.running && r.last == if h == 0 then -1 else h
    requires !s.EndSeen?
    requires s.ChatSeen? ==> 1 <= s.chat.counter <= |texts| && s.chat.counter <= h + 1 && s.chat.text == texts[s.chat.counter - 1]
    ensures var h' := if s.ChatSeen? && s.chat.counter > h then s.chat.counter else h;
            && Texts(Take(r, s).delivered) == texts[..h']
            && Take(r, s).running && Take(r, s).last == if h' == 0 then -1 else h'
  {
    if s.ChatSeen? && s.chat.counter == h + 1 {
      TextsAppend(r.delivered, s.chat);
      assert texts[..h + 1] == texts[..h] + [texts[h]];
    }
  }
}
