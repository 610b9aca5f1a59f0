/**
  The retry ladder told by its history: when an arming starts, what presence,
  sessions and time make of each tick, and what is announced over many armings.
  Everything here is said in terms of the inputs, the tries made and the events
  announced, not of the intent's own counters.
 */
module RetryHistory {
  import opened Common
  import opened Retry

  // ---- Presence -----------------------------------------------------------------------

  /** Whether there is an intent, and whether its peer was last known online. */
  function Presence(inputs: seq<Input>): Option<bool> {
    if inputs == [] then None else
    var before := Presence(inputs[..|inputs| - 1]);
    match inputs[|inputs| - 1]
    case Connect(_, known, live, online) => if known && !live then Some(online) else before
    case Forget => None
    case CameOnline(_) => if before.Some? then Some(true) else None
    case WentOffline => if before.Some? then Some(false) else None
    case Tick(_, _, _) => before
  }

  lemma {:induction false} PresenceIsKept(inputs: seq<Input>)
    ensures Run(inputs).intent.Some? <==> Presence(inputs).Some?
    ensures Run(inputs).intent.Some? ==> Run(inputs).intent.value.online == Presence(inputs).value
    decreases |inputs|
  {
    if inputs != [] {
      PresenceIsKept(inputs[..|inputs| - 1]);
    }
  }

  // ---- Announcements are punches --------------------------------------------------------

  /** The announcements of the punches among `tries` that left: numbered from 1, each with the delay then in force. */
  function Announced(tries: seq<Try>): seq<RetryEvent> {
    if tries == [] then [] else
    var last := tries[|tries| - 1];
    Announced(tries[..|tries| - 1]) + if last.ok then [Retrying(Successes(tries), last.delaySecs)] else []
  }

  predicate GaveUpIn(t: Track) {
    GaveUp in t.events
  }

  lemma {:induction false} AnnouncedAppend(tries: seq<Try>, t: Try)
    ensures Announced(tries + [t]) == Announced(tries) + if t.ok then [Retrying(Successes(tries) + 1, t.delaySecs)] else []
  {
    assert (tries + [t])[..|tries|] == tries;
    SuccessesAppend(tries, t);
  }

  lemma {:induction false} AnnouncedNeverGivesUp(tries: seq<Try>)
    ensures GaveUp !in Announced(tries)
    decreases |tries|
  {
    if tries != [] {
      AnnouncedNeverGivesUp(tries[..|tries| - 1]);
    }
  }

  /** What an intent has announced: its punches that left, and giving up exactly when it is parked. */
  ghost predicate SaidWhatItDid(t: Track) {
    t.intent.Some? ==>
      t.events == if t.intent.value.attempts > MAX_CONNECT_ATTEMPTS then Announced(t.tries) + [GaveUp] else Announced(t.tries)
  }

  lemma {:induction false} TickSays(t: Track, now: int, hasSession: bool, sendOk: bool)
    requires Inv(t) && t.intent.Some? && SaidWhatItDid(t)
    ensures SaidWhatItDid(OnTick(t, now, hasSession, sendOk))
  {
    var it := t.intent.value;
    match NextRetryAction(it, hasSession, now)
    case Punch => PunchSays(t, now, sendOk);
    case Done => assert it.attempts == 0 && it.backoffSecs == 1 ==> t.tries == [];
    case GiveUp =>
    case Wait =>
  }

  lemma {:induction false} PunchSays(t: Track, now: int, sendOk: bool)
    requires Inv(t) && t.intent.Some? && t.events == Announced(t.tries)
    requires NextRetryAction(t.intent.value, false, now) == Punch
    ensures var t' := OnTick(t, now, false, sendOk);
            t'.intent.Some? && t'.intent.value.attempts <= MAX_CONNECT_ATTEMPTS && t'.events == Announced(t'.tries)
  {
    var it := t.intent.value;
    AnnouncedAppend(t.tries, Try(now, it.backoffSecs, sendOk));
    assert Successes(t.tries) == it.attempts;
    assert t.events + [] == t.events;
  }

  lemma {:induction false} RunSays(inputs: seq<Input>)
    ensures SaidWhatItDid(Run(inputs))
    decreases |inputs|
  {
    if inputs != [] {
      var pre, i := inputs[..|inputs| - 1], inputs[|inputs| - 1];
      RunSays(pre);
      RunKeeps(pre);
      if i.Tick? && Run(pre).intent.Some? {
        TickSays(Run(pre), i.now, i.hasSession, i.sendOk);
      }
    }
  }

  lemma {:induction false} ParkedMeansGaveUp(inputs: seq<Input>)
    requires Run(inputs).intent.Some?
    ensures Parked(Run(inputs)) <==> GaveUpIn(Run(inputs))
    ensures Run(inputs).intent.value.attempts <= MAX_CONNECT_ATTEMPTS + 1
  {
    RunKeeps(inputs);
    RunSays(inputs);
    AnnouncedNeverGivesUp(Run(inputs).tries);
  }

  /** Every announcement is that of a punch that left, numbered and with its own delay; giving up comes last, after five of them. */
  lemma {:induction false} AnnouncementsAreThePunches(inputs: seq<Input>)
    requires Run(inputs).intent.Some?
    ensures var t := Run(inputs);
            && t.events == Announced(t.tries) + (if GaveUpIn(t) then [GaveUp] else [])
            && Successes(t.tries) <= 5 && (GaveUpIn(t) ==> Successes(t.tries) == 5)
  {
    RunKeeps(inputs);
    RunSays(inputs);
    ParkedMeansGaveUp(inputs);
  }

  // ---- Armings ----------------------------------------------------------------------------

  /**
    What starts the ladder afresh: a connect command for a known peer without a
    session, a tick that finds a session after some try, and the peer coming online
    after giving up.
   */
  predicate Arms(t: Track, i: Input) {
    match i
    case Connect(_, known, live, _) => known && !live
    case Tick(_, hasSession, _) => t.intent.Some? && hasSession && t.tries != []
    case CameOnline(_) => t.intent.Some? && GaveUpIn(t)
    case _ => false
  }

  /** When the ladder last started. */
  function ArmedAt(inputs: seq<Input>): int {
    if inputs == [] then 0 else
    var before, i := inputs[..|inputs| - 1], inputs[|inputs| - 1];
    if Arms(Run(before), i) then i.now else ArmedAt(before)
  }

  /** When the next try may be made: at the arming, and then the last try's delay after it. */
  function Due(inputs: seq<Input>): int {
    var tries := Run(inputs).tries;
    if tries == [] then ArmedAt(inputs) else tries[|tries| - 1].at + tries[|tries| - 1].delaySecs * SECOND
  }

  lemma {:induction false} TriedMeansMoved(inputs: seq<Input>)
    requires Run(inputs).intent.Some?
    ensures var t := Run(inputs);
            t.tries != [] <==> t.intent.value.attempts != 0 || t.intent.value.backoffSecs != 1
  {
    RunKeeps(inputs);
  }

  /** An input that arms leaves a fresh intent, due at once, with nothing tried and nothing announced; no other input takes anything back. */
  lemma {:induction false} ArmingIsExact(inputs: seq<Input>, i: Input)
    ensures var t, t' := Run(inputs), Run(inputs + [i]);
            if Arms(t, i) then
              && Presence(inputs + [i]).Some?
              && t' == Track(Some(Armed(Presence(inputs + [i]).value, i.now)), [], [])
            else t.events <= t'.events && t.tries <= t'.tries
  {
    var t, all := Run(inputs), inputs + [i];
    RunAppend(inputs, i);
    assert all[..|inputs|] == inputs;
    PresenceIsKept(all);
    if t.intent.Some? {
      TriedMeansMoved(inputs);
      ParkedMeansGaveUp(inputs);
      RunKeeps(inputs);
    }
  }

  lemma {:induction false} DueIsKept(inputs: seq<Input>)
    ensures Run(inputs).intent.Some? ==> Run(inputs).intent.value.dueAt == Due(inputs)
    decreases |inputs|
  {
    if inputs != [] {
      var pre, i := inputs[..|inputs| - 1], inputs[|inputs| - 1];
      assert pre + [i] == inputs;
      DueIsKept(pre);
      ArmingIsExact(pre, i);
      RunKeeps(inputs);
      if Run(inputs).intent.Some? && !Arms(Run(pre), i) && Run(inputs).tries == [] {
        UntriedKeepsDue(pre, i);
      }
    }
  }

  lemma {:induction false} UntriedKeepsDue(inputs: seq<Input>, i: Input)
    requires Run(inputs + [i]).intent.Some? && !Arms(Run(inputs), i) && Run(inputs + [i]).tries == []
    ensures Run(inputs).intent.Some? && Run(inputs + [i]).intent.value.dueAt == Run(inputs).intent.value.dueAt
    ensures Run(inputs).tries == []
  {
    RunAppend(inputs, i);
    ArmingIsExact(inputs, i);
    if Run(inputs).intent.Some? {
      TriedMeansMoved(inputs);
      ParkedMeansGaveUp(inputs);
      RunKeeps(inputs);
    }
  }

  // ---- What a tick does -------------------------------------------------------------------

  /** What a tick makes of the tries and announcements so far, for a peer online or not and a next try due at `due`. */
  ghost predicate TickMakes(online: bool, due: int, now: int, hasSession: bool, sendOk: bool, t: Track, t': Track) {
    var next := Try(now, DelayOf(|t.tries|), sendOk);
    if hasSession then t'.events == [] && t'.tries == []
    else if !online || GaveUpIn(t) then t'.events == t.events && t'.tries == t.tries
    else if Successes(t.tries) == 5 then t'.events == t.events + [GaveUp] && t'.tries == t.tries
    else if now < due then t'.events == t.events && t'.tries == t.tries
    else t'.tries == t.tries + [next] && t'.events == t.events + if sendOk then [Retrying(Successes(t.tries) + 1, next.delaySecs)] else []
  }

  lemma {:induction false} OnTickMakes(t: Track, now: int, hasSession: bool, sendOk: bool)
    requires Inv(t) && t.intent.Some? && t.intent.value.attempts <= MAX_CONNECT_ATTEMPTS + 1 && (Parked(t) <==> GaveUpIn(t))
    ensures TickMakes(t.intent.value.online, t.intent.value.dueAt, now, hasSession, sendOk, t, OnTick(t, now, hasSession, sendOk))
  {
  }

  /**
    A tick, exactly. With a session everything is taken back; otherwise nothing
    happens to an offline peer or after giving up; after five punches that left it
    gives up, whatever the time; before the last try's delay has passed it waits;
    and else it tries, and announces the try if it left.
   */
  lemma {:induction false} TickExactly(inputs: seq<Input>, now: int, hasSession: bool, sendOk: bool)
    requires Presence(inputs).Some?
    ensures TickMakes(Presence(inputs).value, Due(inputs), now, hasSession, sendOk, Run(inputs), Run(inputs + [Tick(now, hasSession, sendOk)]))
  {
    PresenceIsKept(inputs);
    RunKeeps(inputs);
    ParkedMeansGaveUp(inputs);
    DueIsKept(inputs);
    OnTickMakes(Run(inputs), now, hasSession, sendOk);
    RunAppend(inputs, Tick(now, hasSession, sendOk));
  }

  /** However far the ladder had been climbed, a tick that finds a session puts it back to the start: no attempts, a backoff of one second, due at once if anything had been tried. */
  lemma {:induction false} SessionRestartsLadder(inputs: seq<Input>, now: int, sendOk: bool)
    requires Run(inputs).intent.Some?
    ensures var t, t' := Run(inputs), Run(inputs + [Tick(now, true, sendOk)]);
            && t'.intent == Some(Armed(t.intent.value.online, if t.tries != [] then now else t.intent.value.dueAt))
            && t'.events == [] && t'.tries == []
  {
    RunAppend(inputs, Tick(now, true, sendOk));
    RunKeeps(inputs);
    TriedMeansMoved(inputs);
  }

  /** And so does the peer coming online after giving up; before that it only sets the flag. */
  lemma {:induction false} ReturnRestartsLadder(inputs: seq<Input>, now: int)
    requires Run(inputs).intent.Some?
    ensures var t, t' := Run(inputs), Run(inputs + [CameOnline(now)]);
            t' == if GaveUpIn(t) then Track(Some(Armed(true, now)), [], []) else t.(intent := Some(t.intent.value.(online := true)))
  {
    RunAppend(inputs, CameOnline(now));
    ParkedMeansGaveUp(inputs);
  }

  // ---- Over many armings ----------------------------------------------------------------------

  /** Every announcement ever made. */
  function LogOf(inputs: seq<Input>): seq<RetryEvent> {
    if inputs == [] then [] else
    var before, i := inputs[..|inputs| - 1], inputs[|inputs| - 1];
    var it := Run(before).intent;
    LogOf(before) + if i.Tick? && it.Some? then Drive(it.value, i.hasSession, i.now, i.sendOk).events else []
  }

  lemma {:induction false} LogAppend(inputs: seq<Input>, i: Input)
    ensures LogOf(inputs + [i]) == LogOf(inputs) + if i.Tick? && Run(inputs).intent.Some? then Drive(Run(inputs).intent.value, i.hasSession, i.now, i.sendOk).events else []
  {
    assert (inputs + [i])[..|inputs|] == inputs;
  }

  lemma {:induction false} StepSays(inputs: seq<Input>, i: Input) returns (said: seq<RetryEvent>)
    requires !Arms(Run(inputs), i)
    ensures Run(inputs + [i]).events == Run(inputs).events + said && LogOf(inputs + [i]) == LogOf(inputs) + said
  {
    RunAppend(inputs, i);
    LogAppend(inputs, i);
    var it := Run(inputs).intent;
    said := if i.Tick? && it.Some? then Drive(it.value, i.hasSession, i.now, i.sendOk).events else [];
    if Run(inputs).intent.Some? {
      TriedMeansMoved(inputs);
      ParkedMeansGaveUp(inputs);
      RunKeeps(inputs);
    }
  }

  lemma {:induction false} Joins(log: seq<RetryEvent>, log1: seq<RetryEvent>, log2: seq<RetryEvent>, events1: seq<RetryEvent>, events2: seq<RetryEvent>, said: seq<RetryEvent>)
    requires log1 == log + events1 && log2 == log1 + said && events2 == events1 + said
    ensures log2 == log + events2
  {
  }

  /** Nothing from position `b` on arms. */
  predicate NothingArms(inputs: seq<Input>, b: nat) {
    |inputs| <= b ||
    var pre, i := inputs[..|inputs| - 1], inputs[|inputs| - 1];
    NothingArms(pre, b) && !Arms(Run(pre), i)
  }

  /** After `all`, what has been announced is the log at `start` and the current ladder. */
  ghost predicate LoggedSince(start: seq<Input>, all: seq<Input>) {
    LogOf(all) == LogOf(start) + Run(all).events
  }

  lemma {:induction false} LoggedStep(start: seq<Input>, longer: seq<Input>)
    requires longer != []
    requires LoggedSince(start, longer[..|longer| - 1]) && !Arms(Run(longer[..|longer| - 1]), longer[|longer| - 1])
    ensures LoggedSince(start, longer)
  {
    var mid, i := longer[..|longer| - 1], longer[|longer| - 1];
    assert longer == mid + [i];
    var said := StepSays(mid, i);
    Joins(LogOf(start), LogOf(mid), LogOf(longer), Run(mid).events, Run(longer).events, said);
  }

  lemma {:induction false} LogSinceArming(inputs: seq<Input>, b: nat, start: seq<Input>)
    requires b <= |inputs| && start == inputs[..b] && NothingArms(inputs, b)
    requires LoggedSince(start, start)
    ensures LoggedSince(start, inputs)
    decreases |inputs|
  {
    if b == |inputs| {
      assert start == inputs;
    } else {
      assert inputs[..|inputs| - 1][..b] == start;
      LogSinceArming(inputs[..|inputs| - 1], b, start);
      LoggedStep(start, inputs);
    }
  }

  /**
    After a session has been seen, whatever was announced before, the announcements
    start again from the beginning: until the next arming they are a prefix of
    Retrying(1), ..., Retrying(5), GaveUp.
   */
  lemma {:induction false} AnnouncementsRestart(inputs: seq<Input>, b: nat) returns (said: seq<RetryEvent>)
    requires b < |inputs| && Run(inputs[..b]).intent.Some? && inputs[b].Tick? && inputs[b].hasSession
    requires NothingArms(inputs, b + 1)
    ensures LogOf(inputs) == LogOf(inputs[..b]) + said && OnLadder(said)
  {
    var before, tick := inputs[..b], inputs[b];
    assert before + [tick] == inputs[..b + 1];
    SessionRestartsLadder(before, tick.now, tick.sendOk);
    LogAppend(before, tick);
    assert LogOf(inputs[..b + 1]) == LogOf(before);
    LogSinceArming(inputs, b + 1, inputs[..b + 1]);
    said := Run(inputs).events;
    AnnouncementsClimbTheLadder(inputs);
  }

  /** And if the peer stays online, unconnected and with sends succeeding, all of them come, within 15 seconds and six gaps. */
  lemma {:induction false} WholeLadderAgain(before: seq<Input>, start: int, sendOk: bool, inputs: seq<Input>, gap: int) returns (k: nat)
    requires Run(before).intent.Some? && Run(before).intent.value.online && Run(before).tries != []
    requires gap >= 0 && Punctual(start, inputs, gap) && LastTick(start, inputs) > start + 15 * SECOND + 5 * gap
    ensures k < |inputs| && inputs[k].Tick? && inputs[k].now <= start + 15 * SECOND + 6 * gap
    ensures var t := Run(before + [Tick(start, true, sendOk)] + inputs[..k + 1]);
            |t.events| == 6 && OnLadder(t.events)
  {
    var armed := before + [Tick(start, true, sendOk)];
    SessionRestartsLadder(before, start, sendOk);
    ParksInTime(armed, start, inputs, gap);
    k :| k < |inputs| && inputs[k].Tick? && inputs[k].now <= start + 15 * SECOND + 6 * gap && Parked(Run(armed + inputs[..k + 1]));
    AnnouncementsClimbTheLadder(armed + inputs[..k + 1]);
  }

  // ---- The driver ------------------------------------------------------------------------------

  /** Over every run of the driver, in whatever order its passes visit the peers, what it announced of each peer is exactly that peer's own log. */
  lemma {:induction false} DriverLogIsPeersLog(ws: seq<World>, gs: seq<Global>, p: Peer)
    requires Retry.IsRun(ws, gs)
    ensures EventsFor(p, ws[|gs|].log) == LogOf(Project(p, gs))
    decreases |gs|
  {
    if gs != [] {
      var n := |gs| - 1;
      RunPrefix(ws, gs);
      assert ws[..n + 1][n] == ws[n];
      DriverLogIsPeersLog(ws[..n + 1], gs[..n], p);
      PeersAreIndependent(ws[..n + 1], gs[..n], p);
      assert Moves(ws[n], gs[n], ws[n + 1]);
      MoveLogs(ws[n], gs[n], ws[n + 1], p, Project(p, gs[..n]));
      if Share(p, gs[n]).None? {
        assert Project(p, gs) == Project(p, gs[..n]);
      }
    }
  }

  lemma {:induction false} MoveLogs(w: World, g: Global, w': World, p: Peer, inputs: seq<Input>)
    requires Moves(w, g, w') && IntentIn(w.intents, p) == Run(inputs).intent && EventsFor(p, w.log) == LogOf(inputs)
    ensures EventsFor(p, w'.log) == match Share(p, g) { case Some(i) => LogOf(inputs + [i]) case None => LogOf(inputs) }
  {
    if Share(p, g).Some? {
      LogAppend(inputs, Share(p, g).value);
    }
    if g.PassOver? {
      assert EventsFor(p, w'.log) == EventsFor(p, w.log) + Said(g.pass, w.intents, {}, p);
    }
  }
}
