/**
  The connect retry ladder (crates/client): per-peer intents, driven by the
  retry tick with capped doubling backoff.
 */
module Retry {
  import opened Common
  import opened Crypto

  type Peer = Hash

  /** Instants are integers in nanoseconds. */
  const SECOND: int := 1_000_000_000
  const MAX_CONNECT_ATTEMPTS: nat := 5
  const RETRY_BACKOFF_CAP_SECS: nat := 30

  datatype Intent = Intent(attempts: nat, backoffSecs: nat, dueAt: int, online: bool)

  function Armed(online: bool, now: int): Intent {
    Intent(0, 1, now, online)
  }

  function Rearm(it: Intent, now: int): Intent {
    it.(attempts := 0, backoffSecs := 1, dueAt := now)
  }

  datatype RetryAction = Punch | GiveUp | Wait | Done

  function NextRetryAction(it: Intent, hasSession: bool, now: int): RetryAction {
    if hasSession then Done
    else if !it.online then Wait
    else if it.attempts > MAX_CONNECT_ATTEMPTS then Wait
    else if it.attempts == MAX_CONNECT_ATTEMPTS then GiveUp
    else if now < it.dueAt then Wait
    else Punch
  }

  function BumpBackoff(current: nat): nat {
    if current * 2 < RETRY_BACKOFF_CAP_SECS then current * 2 else RETRY_BACKOFF_CAP_SECS
  }

  datatype RetryEvent = Retrying(attempt: nat, delaySecs: nat) | GaveUp

  /** What one tick does to one intent: the new intent, what it announces, whether it re-armed, whether it tried. */
  datatype Driven = Driven(intent: Intent, events: seq<RetryEvent>, rearmed: bool, tried: bool)

  function Drive(it: Intent, hasSession: bool, now: int, sendOk: bool): Driven {
    match NextRetryAction(it, hasSession, now)
    case Done =>
      if it.attempts != 0 || it.backoffSecs != 1 then Driven(Rearm(it, now), [], true, false)
      else Driven(it, [], false, false)
    case Punch =>
      if sendOk then
        Driven(it.(attempts := it.attempts + 1,
                   dueAt := now + it.backoffSecs * SECOND,
                   backoffSecs := BumpBackoff(it.backoffSecs)),
               [Retrying(it.attempts + 1, it.backoffSecs)], false, true)
      else
        Driven(it.(dueAt := now + (if it.backoffSecs > 1 then it.backoffSecs else 1) * SECOND,
                   backoffSecs := BumpBackoff(it.backoffSecs)),
               [], false, true)
    case GiveUp => Driven(it.(attempts := MAX_CONNECT_ATTEMPTS + 1), [GaveUp], false, false)
    case Wait => Driven(it, [], false, false)
  }

  // ---- One peer under any input -------------------------------------------------

  datatype Input =
    | Tick(now: int, hasSession: bool, sendOk: bool)
    | CameOnline(now: int)
    | WentOffline
    | Connect(now: int, known: bool, live: bool, online: bool)
    | Forget

  /** A punch request that was tried, with the backoff in force and whether it left the client. */
  datatype Try = Try(at: int, delaySecs: nat, ok: bool)

  /** The peer's intent together with what happened since it was last armed. */
  datatype Track = Track(intent: Option<Intent>, events: seq<RetryEvent>, tries: seq<Try>)

  const Untracked: Track := Track(None, [], [])

  function OnTick(t: Track, now: int, hasSession: bool, sendOk: bool): Track
    requires t.intent.Some?
  {
    var it := t.intent.value;
    var d := Drive(it, hasSession, now, sendOk);
    if d.rearmed then Track(Some(d.intent), [], [])
    else Track(Some(d.intent), t.events + d.events,
               if d.tried then t.tries + [Try(now, it.backoffSecs, sendOk)] else t.tries)
  }

  function OnOnline(it: Intent, now: int): Intent {
    var on := it.(online := true);
    if it.attempts > MAX_CONNECT_ATTEMPTS then Rearm(on, now) else on
  }

  function Step(t: Track, i: Input): Track {
    match i
    case Connect(now, known, live, online) =>
      if !known || live then t else Track(Some(Armed(online, now)), [], [])
    case Forget => t.(intent := None)
    case Tick(now, hasSession, sendOk) =>
      if t.intent.None? then t else OnTick(t, now, hasSession, sendOk)
    case CameOnline(now) =>
      if t.intent.None? then t
      else if t.intent.value.attempts > MAX_CONNECT_ATTEMPTS
      then Track(Some(OnOnline(t.intent.value, now)), [], [])
      else t.(intent := Some(OnOnline(t.intent.value, now)))
    case WentOffline =>
      if t.intent.None? then t else t.(intent := Some(t.intent.value.(online := false)))
  }

  function Run(inputs: seq<Input>): Track {
    if inputs == [] then Untracked else Step(Run(inputs[..|inputs| - 1]), inputs[|inputs| - 1])
  }

  // ---- What the ladder is -------------------------------------------------------

  /** A prefix of Retrying(1), Retrying(2), Retrying(3), Retrying(4), Retrying(5), GaveUp. */
  predicate OnLadder(es: seq<RetryEvent>) {
    && |es| <= MAX_CONNECT_ATTEMPTS + 1
    && forall k :: 0 <= k < |es| ==>
         if k < MAX_CONNECT_ATTEMPTS then es[k].Retrying? && es[k].attempt == k + 1 else es[k].GaveUp?
  }

  /** The backoff before try number `n`: 1, 2, 4, 8, 16, 30, 30, ... */
  function DelayOf(n: nat): nat {
    if n == 0 then 1 else if n == 1 then 2 else if n == 2 then 4 else if n == 3 then 8 else if n == 4 then 16 else 30
  }

  function Successes(tries: seq<Try>): (n: nat)
    ensures n <= |tries|
  {
    if tries == [] then 0
    else Successes(tries[..|tries| - 1]) + if tries[|tries| - 1].ok then 1 else 0
  }

  ghost predicate TriesSpaced(tries: seq<Try>) {
    && (forall j :: 0 <= j < |tries| ==> tries[j].delaySecs == DelayOf(j))
    && (forall j :: 0 < j < |tries| ==> tries[j].at >= tries[j - 1].at + tries[j - 1].delaySecs * SECOND)
  }

  /** How an intent stands to the tries made since it was armed. */
  ghost predicate TriesMatch(it: Intent, tries: seq<Try>) {
    && Successes(tries) == (if it.attempts == 6 then 5 else it.attempts)
    && it.backoffSecs == DelayOf(|tries|)
    && (tries != [] ==> it.dueAt == tries[|tries| - 1].at + tries[|tries| - 1].delaySecs * SECOND)
  }

  ghost predicate Inv(t: Track) {
    && OnLadder(t.events)
    && TriesSpaced(t.tries)
    && (t.intent.Some? ==> t.intent.value.attempts == |t.events| && TriesMatch(t.intent.value, t.tries))
  }

  /** Doubling under the cap walks down the list of delays. */
  lemma {:induction false} BumpIsNextDelay(n: nat)
    ensures BumpBackoff(DelayOf(n)) == DelayOf(n + 1)
  {
  }

  lemma {:induction false} SpacedExtends(tries: seq<Try>, t: Try)
    requires TriesSpaced(tries) && t.delaySecs == DelayOf(|tries|)
    requires tries != [] ==> t.at >= tries[|tries| - 1].at + tries[|tries| - 1].delaySecs * SECOND
    ensures TriesSpaced(tries + [t])
  {
    var more := tries + [t];
    forall j | 0 < j < |more| ensures more[j].at >= more[j - 1].at + more[j - 1].delaySecs * SECOND {
      if j < |tries| {
        assert tries[j].at >= tries[j - 1].at + tries[j - 1].delaySecs * SECOND;
      }
    }
  }

  lemma {:induction false} SuccessesAppend(tries: seq<Try>, t: Try)
    ensures Successes(tries + [t]) == Successes(tries) + if t.ok then 1 else 0
  {
    assert (tries + [t])[..|tries|] == tries;
  }

  /** A tried punch waits the backoff in force and doubles it; only one that left the client counts. */
  lemma {:induction false} PunchMoves(it: Intent, now: int, ok: bool)
    requires it.online && it.attempts < MAX_CONNECT_ATTEMPTS && now >= it.dueAt && it.backoffSecs >= 1
    ensures Drive(it, false, now, ok).intent
         == Intent(it.attempts + if ok then 1 else 0, BumpBackoff(it.backoffSecs), now + it.backoffSecs * SECOND, true)
  {
    assert NextRetryAction(it, false, now) == Punch;
    if it.backoffSecs <= 1 {
      assert it.backoffSecs == 1;
    }
  }

  lemma {:induction false} MatchExtends(it: Intent, next: Intent, tries: seq<Try>, t: Try)
    requires TriesMatch(it, tries) && it.attempts < MAX_CONNECT_ATTEMPTS
    requires next.attempts == it.attempts + if t.ok then 1 else 0
    requires next.backoffSecs == DelayOf(|tries| + 1)
    requires next.dueAt == t.at + t.delaySecs * SECOND
    ensures TriesMatch(next, tries + [t])
  {
    SuccessesAppend(tries, t);
    var more := tries + [t];
    assert |more| == |tries| + 1 && more[|more| - 1] == t;
  }

  lemma {:induction false} TryKeeps(it: Intent, tries: seq<Try>, now: int, ok: bool)
    requires TriesSpaced(tries) && TriesMatch(it, tries)
    requires it.online && it.attempts < MAX_CONNECT_ATTEMPTS && now >= it.dueAt
    ensures var more := tries + [Try(now, it.backoffSecs, ok)];
            TriesSpaced(more) && TriesMatch(Drive(it, false, now, ok).intent, more)
  {
    var t := Try(now, it.backoffSecs, ok);
    assert TriesSpaced(tries + [t]) by {
      SpacedExtends(tries, t);
    }
    var next := Drive(it, false, now, ok).intent;
    assert TriesMatch(next, tries + [t]) by {
      PunchMoves(it, now, ok);
      BumpIsNextDelay(|tries|);
      MatchExtends(it, next, tries, t);
    }
  }

  lemma {:induction false} TickKeeps(t: Track, now: int, hasSession: bool, sendOk: bool)
    requires Inv(t) && t.intent.Some?
    ensures Inv(OnTick(t, now, hasSession, sendOk))
  {
    var it := t.intent.value;
    if NextRetryAction(it, hasSession, now) == Punch {
      TryKeeps(it, t.tries, now, sendOk);
    }
  }

  lemma {:induction false} RunKeeps(inputs: seq<Input>)
    ensures Inv(Run(inputs))
    decreases |inputs|
  {
    if inputs != [] {
      RunKeeps(inputs[..|inputs| - 1]);
      var t, i := Run(inputs[..|inputs| - 1]), inputs[|inputs| - 1];
      if i.Tick? && t.intent.Some? {
        TickKeeps(t, i.now, i.hasSession, i.sendOk);
      }
    }
  }

  /**
    After any mix of ticks, presence changes, session changes, failed sends,
    connects and removals, what was announced since the last arming is a prefix of
    Retrying(1), ..., Retrying(5), GaveUp; while the intent lives, exactly as long
    as its attempt count.
   */
  lemma {:induction false} AnnouncementsClimbTheLadder(inputs: seq<Input>)
    ensures var t := Run(inputs);
            && OnLadder(t.events)
            && (t.intent.Some? ==> |t.events| == t.intent.value.attempts)
  {
    RunKeeps(inputs);
  }

  /** Giving up takes five punches that left the client; failed sends announce nothing. */
  lemma {:induction false} GiveUpNeedsFivePunches(inputs: seq<Input>)
    ensures var t := Run(inputs);
            t.intent.Some? ==>
              && (t.intent.value.attempts >= MAX_CONNECT_ATTEMPTS <==> Successes(t.tries) == 5)
              && (GaveUp in t.events ==> Successes(t.tries) == 5)
  {
    RunKeeps(inputs);
  }

  /** With every send failing, nothing is ever announced. */
  lemma {:induction false} FailedSendsAreSilent(inputs: seq<Input>)
    requires forall k :: 0 <= k < |inputs| && inputs[k].Tick? ==> !inputs[k].sendOk
    ensures Run(inputs).events == []
    ensures Run(inputs).intent.Some? ==> Run(inputs).intent.value.attempts == 0
    decreases |inputs|
  {
    if inputs != [] {
      FailedSendsAreSilent(inputs[..|inputs| - 1]);
    }
  }

  /** In every reachable state the attempt count and the backoff are tied together. */
  lemma {:induction false} ReachableLadder(inputs: seq<Input>)
    requires Run(inputs).intent.Some?
    ensures var it := Run(inputs).intent.value;
            && it.attempts <= 6
            && it.backoffSecs in {1, 2, 4, 8, 16, 30}
            && (it.attempts <= 5 ==> it.backoffSecs >= DelayOf(it.attempts))
            && (it.attempts >= 5 ==> it.backoffSecs == 30)
  {
    RunKeeps(inputs);
  }

  lemma {:induction false} SuccessesAreTries(tries: seq<Try>, p: nat, q: nat)
    requires p <= q <= |tries|
    ensures Successes(tries[..q]) <= Successes(tries[..p]) + (q - p)
    decreases q
  {
    if p < q {
      SuccessesAreTries(tries, p, q - 1);
      assert tries[..q] == tries[..q - 1] + [tries[q - 1]];
      SuccessesAppend(tries[..q - 1], tries[q - 1]);
    }
  }

  /** Whatever fails in between, the fifth punch to leave the client does so at least 15 seconds after the first. */
  lemma {:induction false} FifthPunchTakesFifteenSeconds(inputs: seq<Input>, p: nat, q: nat)
    requires p <= q < |Run(inputs).tries|
    requires Successes(Run(inputs).tries[..q + 1]) >= Successes(Run(inputs).tries[..p]) + 5
    ensures Run(inputs).tries[q].at >= Run(inputs).tries[p].at + 15 * SECOND
  {
    SuccessesAreTries(Run(inputs).tries, p, q + 1);
    FourTriesTakeFifteenSeconds(inputs, p, q);
  }

  /** Tries `p` and `q` of one arming, four or more apart, are at least 15 seconds apart. */
  lemma {:induction false} FourTriesTakeFifteenSeconds(inputs: seq<Input>, p: nat, q: nat)
    requires p + 4 <= q < |Run(inputs).tries|
    ensures Run(inputs).tries[q].at >= Run(inputs).tries[p].at + 15 * SECOND
  {
    RunKeeps(inputs);
    var ts := Run(inputs).tries;
    TriesAscend(ts, p + 4, q);
    assert ts[p + 1].at >= ts[p].at + DelayOf(p) * SECOND;
    assert ts[p + 2].at >= ts[p + 1].at + DelayOf(p + 1) * SECOND;
    assert ts[p + 3].at >= ts[p + 2].at + DelayOf(p + 2) * SECOND;
    assert ts[p + 4].at >= ts[p + 3].at + DelayOf(p + 3) * SECOND;
  }

  lemma {:induction false} TriesAscend(tries: seq<Try>, p: nat, q: nat)
    requires TriesSpaced(tries) && p <= q < |tries|
    ensures tries[p].at <= tries[q].at
    decreases q
  {
    if p < q {
      TriesAscend(tries, p, q - 1);
    }
  }

  /** A purged or removed peer is silent until it is connected again. */
  lemma {:induction false} ForgottenIsSilent(before: seq<Input>, after: seq<Input>)
    requires forall k :: 0 <= k < |after| ==> !after[k].Connect?
    ensures Run(before + [Forget] + after).intent == None
    ensures Run(before + [Forget] + after).events == Run(before).events
    decreases |after|
  {
    var all := before + [Forget];
    if after == [] {
      assert all + after == all && all[..|before|] == before;
    } else {
      var m := |after| - 1;
      ForgottenIsSilent(before, after[..m]);
      assert (all + after)[..|all + after| - 1] == all + after[..m];
    }
  }

  // ---- Progress -----------------------------------------------------------------

  /** Inputs of a peer that stays online and unconnected while every send succeeds. */
  predicate Undisturbed(i: Input) {
    i.CameOnline? || (i.Tick? && !i.hasSession && i.sendOk)
  }

  /** The latest tick, or the start. */
  function LastTick(start: int, inputs: seq<Input>): int {
    if inputs == [] then start
    else if inputs[|inputs| - 1].Tick? then inputs[|inputs| - 1].now
    else LastTick(start, inputs[..|inputs| - 1])
  }

  /** Ticks follow the start and each other by at most `gap`; the peer may be announced online at any time. */
  ghost predicate Punctual(start: int, inputs: seq<Input>, gap: int) {
    forall k :: 0 <= k < |inputs| ==>
      && Undisturbed(inputs[k])
      && (inputs[k].Tick? ==> LastTick(start, inputs[..k]) <= inputs[k].now <= LastTick(start, inputs[..k]) + gap)
  }

  predicate Parked(t: Track) {
    t.intent.Some? && t.intent.value.attempts == MAX_CONNECT_ATTEMPTS + 1
  }

  /** Seconds of backoff behind an intent with this many attempts, capped before the last delay. */
  function Spent(attempts: nat): int {
    if attempts == 0 then 0 else if attempts == 1 then 1 else if attempts == 2 then 3 else if attempts == 3 then 7 else 15
  }

  /** Some tick no later than `limit` parked the intent, giving up aloud. */
  ghost predicate ParkedBy(before: seq<Input>, inputs: seq<Input>, limit: int) {
    exists k :: 0 <= k < |inputs| && inputs[k].Tick? && inputs[k].now <= limit && Parked(Run(before + inputs[..k + 1]))
  }

  /** An intent that has not given up, after a tick at `last`: no later than its share of the budget. */
  predicate OnSchedule(start: int, gap: int, it: Intent, last: int) {
    && it.online && it.attempts <= 5
    && (it.attempts <= 4 ==>
          && it.backoffSecs == DelayOf(it.attempts)
          && last <= it.dueAt <= start + Spent(it.attempts) * SECOND + it.attempts * gap)
    && (it.attempts == 5 ==> last <= start + 15 * SECOND + 5 * gap)
  }

  lemma {:induction false} ScheduleStep(start: int, gap: int, it: Intent, last: int, now: int)
    requires gap >= 0 && OnSchedule(start, gap, it, last) && last <= now <= last + gap
    ensures var it' := Drive(it, false, now, true).intent;
            if it.attempts == 5 then it'.attempts == 6 && now <= start + 15 * SECOND + 6 * gap
            else OnSchedule(start, gap, it', now)
  {
  }

  /** One undisturbed input, to an intent on schedule. */
  lemma {:induction false} UndisturbedStep(start: int, gap: int, t: Track, last: int, i: Input)
    requires gap >= 0 && t.intent.Some? && OnSchedule(start, gap, t.intent.value, last)
    requires Undisturbed(i) && (i.Tick? ==> last <= i.now <= last + gap)
    ensures var t' := Step(t, i);
            if i.Tick? && t.intent.value.attempts == 5 then Parked(t') && i.now <= start + 15 * SECOND + 6 * gap
            else t'.intent.Some? && OnSchedule(start, gap, t'.intent.value, if i.Tick? then i.now else last)
  {
    if i.Tick? {
      ScheduleStep(start, gap, t.intent.value, last, i.now);
    }
  }

  lemma {:induction false} PunctualPrefix(start: int, inputs: seq<Input>, gap: int)
    requires inputs != [] && Punctual(start, inputs, gap)
    ensures Punctual(start, inputs[..|inputs| - 1], gap)
  {
    var n := |inputs| - 1;
    var pre := inputs[..n];
    forall k | 0 <= k < n
      ensures Undisturbed(pre[k]) && (pre[k].Tick? ==> LastTick(start, pre[..k]) <= pre[k].now <= LastTick(start, pre[..k]) + gap)
    {
      assert pre[..k] == inputs[..k] && pre[k] == inputs[k];
    }
  }

  /** Until it is parked, an undisturbed intent keeps to its schedule. */
  lemma {:induction false} StaysOnSchedule(before: seq<Input>, start: int, inputs: seq<Input>, gap: int)
    requires gap >= 0 && Run(before).intent == Some(Armed(true, start)) && Punctual(start, inputs, gap)
    ensures var t := Run(before + inputs);
            || ParkedBy(before, inputs, start + 15 * SECOND + 6 * gap)
            || (t.intent.Some? && OnSchedule(start, gap, t.intent.value, LastTick(start, inputs)))
    decreases |inputs|
  {
    if inputs == [] {
      assert before + inputs == before;
    } else {
      var n := |inputs| - 1;
      var pre, limit := inputs[..n], start + 15 * SECOND + 6 * gap;
      PunctualPrefix(start, inputs, gap);
      StaysOnSchedule(before, start, pre, gap);
      if ParkedBy(before, pre, limit) {
        ParkedEarlier(before, inputs, n, limit);
      } else {
        var t := Run(before + pre);
        UndisturbedStep(start, gap, t, LastTick(start, pre), inputs[n]);
        assert Run(before + inputs) == Step(t, inputs[n]) by {
          RunAppend(before + pre, inputs[n]);
          assert before + pre + [inputs[n]] == before + inputs;
        }
        assert inputs[..n + 1] == inputs;
      }
    }
  }

  lemma {:induction false} ParkedEarlier(before: seq<Input>, inputs: seq<Input>, n: nat, limit: int)
    requires n <= |inputs| && ParkedBy(before, inputs[..n], limit)
    ensures ParkedBy(before, inputs, limit)
  {
    var pre := inputs[..n];
    var k :| 0 <= k < n && pre[k].Tick? && pre[k].now <= limit && Parked(Run(before + pre[..k + 1]));
    assert pre[..k + 1] == inputs[..k + 1] && pre[k] == inputs[k];
  }

  lemma {:induction false} RunAppend(inputs: seq<Input>, i: Input)
    ensures Run(inputs + [i]) == Step(Run(inputs), i)
  {
    assert (inputs + [i])[..|inputs|] == inputs;
  }

  /**
    However the intent came to be armed, a peer that from then on stays online and
    unconnected while every send succeeds, ticked at least every `gap` and announced
    online any number of times in between, is parked within 15 seconds and six gaps.
   */
  lemma {:induction false} ParksInTime(before: seq<Input>, start: int, inputs: seq<Input>, gap: int)
    requires gap >= 0 && Run(before).intent == Some(Armed(true, start)) && Punctual(start, inputs, gap)
    requires LastTick(start, inputs) > start + 15 * SECOND + 5 * gap
    ensures ParkedBy(before, inputs, start + 15 * SECOND + 6 * gap)
  {
    StaysOnSchedule(before, start, inputs, gap);
    if !ParkedBy(before, inputs, start + 15 * SECOND + 6 * gap) {
      ScheduleIsEarly(start, gap, Run(before + inputs).intent.value, LastTick(start, inputs));
    }
  }

  lemma {:induction false} ScheduleIsEarly(start: int, gap: int, it: Intent, last: int)
    requires gap >= 0 && OnSchedule(start, gap, it, last)
    ensures last <= start + 15 * SECOND + 5 * gap
  {
    if it.attempts <= 4 {
      assert it.attempts * gap <= 5 * gap;
    }
  }

  // ---- The driver over all peers --------------------------------------------------

  datatype AppEvent = AppEvent(peer: Peer, event: RetryEvent)

  function EventsFor(p: Peer, log: seq<AppEvent>): seq<RetryEvent> {
    if log == [] then []
    else EventsFor(p, log[..|log| - 1]) + if log[|log| - 1].peer == p then [log[|log| - 1].event] else []
  }

  function Tagged(p: Peer, es: seq<RetryEvent>): (log: seq<AppEvent>)
    ensures |log| == |es|
    ensures forall i :: 0 <= i < |es| ==> log[i] == AppEvent(p, es[i])
  {
    seq(|es|, i requires 0 <= i < |es| => AppEvent(p, es[i]))
  }

  lemma {:induction false} EventsForAppend(p: Peer, log: seq<AppEvent>, q: Peer, es: seq<RetryEvent>)
    ensures EventsFor(p, log + Tagged(q, es)) == EventsFor(p, log) + if p == q then es else []
    decreases |es|
  {
    var added := Tagged(q, es);
    if es == [] {
      assert log + added == log;
    } else {
      var m := |es| - 1;
      EventsForAppend(p, log, q, es[..m]);
      assert (log + added)[..|log + added| - 1] == log + Tagged(q, es[..m]);
      assert es == es[..m] + [es[m]];
    }
  }

  /** One pass of the retry tick: the two snapshots, the clock, and the fate of a send to each peer. */
  datatype Pass = Pass(live: set<Peer>, inFlight: set<Peer>, now: int, sendOk: Peer -> bool)

  predicate Connected(pass: Pass, p: Peer) {
    p in pass.live || p in pass.inFlight
  }

  function DriveOne(pass: Pass, p: Peer, it: Intent): Driven {
    Drive(it, Connected(pass, p), pass.now, pass.sendOk(p))
  }

  /** What peer `p` announces once its turn has come. */
  ghost function Said(pass: Pass, before: map<Peer, Intent>, todo: set<Peer>, p: Peer): seq<RetryEvent> {
    if p in before && p !in todo then DriveOne(pass, p, before[p]).events else []
  }

  ghost predicate LogSwept(pass: Pass, before: map<Peer, Intent>, todo: set<Peer>, log: seq<AppEvent>, log': seq<AppEvent>) {
    forall p :: EventsFor(p, log') == EventsFor(p, log) + Said(pass, before, todo, p)
  }

  lemma {:induction false} LogStep(pass: Pass, before: map<Peer, Intent>, todo: set<Peer>, log: seq<AppEvent>, log': seq<AppEvent>, q: Peer)
    requires LogSwept(pass, before, todo, log, log') && q in todo && q in before
    ensures LogSwept(pass, before, todo - {q}, log, log' + Tagged(q, DriveOne(pass, q, before[q]).events))
  {
    var es := DriveOne(pass, q, before[q]).events;
    forall p ensures EventsFor(p, log' + Tagged(q, es)) == EventsFor(p, log) + Said(pass, before, todo - {q}, p) {
      EventsForAppend(p, log', q, es);
      assert EventsFor(p, log') == EventsFor(p, log) + Said(pass, before, todo, p);
      assert p == q ==> Said(pass, before, todo, p) == [];
    }
  }

  // ---- Whole runs of the driver -----------------------------------------------

  datatype Global = PassOver(pass: Pass) | At(peer: Peer, input: Input)

  datatype World = World(intents: map<Peer, Intent>, log: seq<AppEvent>)

  function IntentIn(intents: map<Peer, Intent>, p: Peer): Option<Intent> {
    if p in intents then Some(intents[p]) else None
  }

  /** How the driver's state may move: a pass sweeps every peer, anything else touches one. */
  ghost predicate Moves(w: World, g: Global, w': World) {
    match g
    case PassOver(pass) =>
      && w'.intents == (map p | p in w.intents :: DriveOne(pass, p, w.intents[p]).intent)
      && LogSwept(pass, w.intents, {}, w.log, w'.log)
    case At(p, i) =>
      && !i.Tick? && w'.log == w.log
      && (forall q :: q != p ==> IntentIn(w'.intents, q) == IntentIn(w.intents, q))
      && IntentIn(w'.intents, p) == Step(Track(IntentIn(w.intents, p), [], []), i).intent
  }

  ghost predicate IsRun(ws: seq<World>, gs: seq<Global>) {
    && |ws| == |gs| + 1 && ws[0] == World(map[], [])
    && forall k :: 0 <= k < |gs| ==> Moves(ws[k], gs[k], ws[k + 1])
  }

  /** One peer's share of a move, and of a run. */
  function Share(p: Peer, g: Global): Option<Input> {
    match g
    case PassOver(pass) => Some(Tick(pass.now, Connected(pass, p), pass.sendOk(p)))
    case At(q, i) => if p == q then Some(i) else None
  }

  function Project(p: Peer, gs: seq<Global>): seq<Input> {
    if gs == [] then []
    else Project(p, gs[..|gs| - 1]) + match Share(p, gs[|gs| - 1]) { case Some(i) => [i] case None => [] }
  }

  predicate EndsWith(s: seq<RetryEvent>, t: seq<RetryEvent>) {
    |t| <= |s| && s[|s| - |t|..] == t
  }

  lemma {:induction false} RunPrefix(ws: seq<World>, gs: seq<Global>)
    requires IsRun(ws, gs) && gs != []
    ensures IsRun(ws[..|gs|], gs[..|gs| - 1])
  {
    var n := |gs| - 1;
    forall k | 0 <= k < n ensures Moves(ws[..n + 1][k], gs[..n][k], ws[..n + 1][k + 1]) {
      assert Moves(ws[k], gs[k], ws[k + 1]);
    }
  }

  /** One move of the driver, as one peer sees it. */
  lemma {:induction false} MoveProjects(w: World, g: Global, w': World, p: Peer, t: Track)
    requires Moves(w, g, w')
    requires IntentIn(w.intents, p) == t.intent && EndsWith(EventsFor(p, w.log), t.events)
    ensures var i := Share(p, g);
            var t' := if i.Some? then Step(t, i.value) else t;
            IntentIn(w'.intents, p) == t'.intent && EndsWith(EventsFor(p, w'.log), t'.events)
  {
    if g.PassOver? {
      PassProjects(w, g.pass, w', p, t);
    } else if g.peer == p {
      InputProjects(t, g.input);
    }
  }

  /** Apart from ticks, an input acts on the intent alone and can only cut the announcements short. */
  lemma {:induction false} InputProjects(t: Track, i: Input)
    requires !i.Tick?
    ensures Step(t, i).intent == Step(Track(t.intent, [], []), i).intent
    ensures Step(t, i).events == t.events || Step(t, i).events == []
  {
  }

  lemma {:induction false} EndsWithAppend(s: seq<RetryEvent>, t: seq<RetryEvent>, u: seq<RetryEvent>)
    requires EndsWith(s, t)
    ensures EndsWith(s + u, t + u)
  {
  }

  lemma {:induction false} PassProjects(w: World, pass: Pass, w': World, p: Peer, t: Track)
    requires Moves(w, PassOver(pass), w')
    requires IntentIn(w.intents, p) == t.intent && EndsWith(EventsFor(p, w.log), t.events)
    ensures var t' := Step(t, Tick(pass.now, Connected(pass, p), pass.sendOk(p)));
            IntentIn(w'.intents, p) == t'.intent && EndsWith(EventsFor(p, w'.log), t'.events)
  {
    var earlier, later := EventsFor(p, w.log), EventsFor(p, w'.log);
    assert later == earlier + Said(pass, w.intents, {}, p);
    if p in w.intents {
      EndsWithAppend(earlier, t.events, DriveOne(pass, p, w.intents[p]).events);
    }
  }

  /** Whatever the other peers do, each peer behaves as the single-peer machine on its own share. */
  lemma {:induction false} PeersAreIndependent(ws: seq<World>, gs: seq<Global>, p: Peer)
    requires IsRun(ws, gs)
    ensures IntentIn(ws[|gs|].intents, p) == Run(Project(p, gs)).intent
    ensures EndsWith(EventsFor(p, ws[|gs|].log), Run(Project(p, gs)).events)
    decreases |gs|
  {
    if gs != [] {
      var n := |gs| - 1;
      RunPrefix(ws, gs);
      PeersAreIndependent(ws[..n + 1], gs[..n], p);
      var before, i := Project(p, gs[..n]), Share(p, gs[n]);
      assert Moves(ws[n], gs[n], ws[n + 1]);
      MoveProjects(ws[n], gs[n], ws[n + 1], p, Run(before));
      if i.Some? {
        assert (before + [i.value])[..|before|] == before;
      } else {
        assert Project(p, gs) == before;
      }
    }
  }

  class Driver {
    var intents: map<Peer, Intent>
    var appEvents: seq<AppEvent>

    ghost function Snapshot(): World
      reads this
    {
      World(intents, appEvents)
    }

    constructor ()
      ensures Snapshot() == World(map[], [])
    {
      intents, appEvents := map[], [];
    }

    /**
      One pass in whatever order the map yields its peers: each intent moves by its
      own step, each peer's announcements are its own, and exactly the peers whose
      next action is Punch are asked about, none of them connected or in flight.
     */
    method DriveRetries(pass: Pass) returns (punched: set<Peer>)
      modifies this
      ensures Moves(old(Snapshot()), PassOver(pass), Snapshot())
      ensures punched == set p | p in old(intents) && NextRetryAction(old(intents)[p], Connected(pass, p), pass.now) == Punch
      ensures punched !! pass.live && punched !! pass.inFlight
    {
      ghost var before, log := intents, appEvents;
      var todo := intents.Keys;
      punched := {};
      while todo != {}
        invariant todo <= before.Keys
        invariant intents == map p | p in before :: if p in todo then before[p] else DriveOne(pass, p, before[p]).intent
        invariant LogSwept(pass, before, todo, log, appEvents)
        invariant punched == set p | p in before && p !in todo && NextRetryAction(before[p], Connected(pass, p), pass.now) == Punch
        decreases todo
      {
        var p :| p in todo;
        LogStep(pass, before, todo, log, appEvents, p);
        if NextRetryAction(intents[p], Connected(pass, p), pass.now) == Punch {
          punched := punched + {p};
        }
        var d := DriveOne(pass, p, intents[p]);
        appEvents := appEvents + Tagged(p, d.events);
        intents := intents[p := d.intent];
        todo := todo - {p};
      }
    }

    /** Every other input touches one peer's intent, as `Step` says, and announces nothing. */
    method HandleInput(p: Peer, i: Input)
      requires !i.Tick?
      modifies this`intents
      ensures Moves(old(Snapshot()), At(p, i), Snapshot())
    {
      match i
      case Connect(now, known, live, online) =>
        if known && !live {
          intents := intents[p := Armed(online, now)];
        }
      case Forget =>
        intents := intents - {p};
      case CameOnline(now) =>
        if p in intents {
          intents := intents[p := intents[p].(online := true)];
          if intents[p].attempts > MAX_CONNECT_ATTEMPTS {
            intents := intents[p := Rearm(intents[p], now)];
          }
        }
      case WentOffline =>
        if p in intents {
          intents := intents[p := intents[p].(online := false)];
        }
    }

  }
}
