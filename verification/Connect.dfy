/**
  Concurrent connect tasks (crates/client `connect_session`, `ConnectingGuard`):
  the reservation of a peer while an attempt is in flight, and the accounting of
  sessions coming up and going down.

  Each action is one atomic step of one task: a lock is taken, used and released
  inside it, and anything else may happen between two steps. The runtime is
  multi-threaded, so this holds between a look and a reservation too, although
  the task is not suspended there.
 */
module Connect {
  import opened Crypto

  type Peer = Hash

  /**
    Where a connect task stands: just spawned; session map looked up; peer
    reserved and attempt running; session in the map; about to drop its guard;
    returned.
   */
  datatype Stage = Spawned | Looked(live: bool) | Working | Landed | Leaving | Returned

  datatype Task = Task(peer: Peer, stage: Stage)

  /** A forwarder task: relaying events; session removed from the map; finished. */
  datatype Relay = Relaying | Removed | Finished

  datatype Forwarder = Forwarder(peer: Peer, stage: Relay)

  datatype AppEvent = SessionUp(peer: Peer) | SessionDown(peer: Peer) | MessageArrived(peer: Peer)

  datatype State = State(
    tasks: seq<Task>, connecting: set<Peer>, sessions: set<Peer>,
    forwarders: seq<Forwarder>, trace: seq<AppEvent>)

  datatype Action =
    | Spawn(peer: Peer)
    | Look(t: nat)
    | Reserve(t: nat, poisoned: bool)
    | Fail(t: nat)
    | Land(t: nat)
    | Announce(t: nat)
    | DropGuard(t: nat)
    | Forward(f: nat)
    | SessionEnds(f: nat)
    | ReportDown(f: nat)
    | DropSession(peer: Peer)
    | Shutdown

  const Initial: State := State([], {}, {}, [], [])

  function SetTask(s: State, t: nat, stage: Stage): State
    requires t < |s.tasks|
  {
    s.(tasks := s.tasks[t := s.tasks[t].(stage := stage)])
  }

  function SetForwarder(s: State, f: nat, stage: Relay): State
    requires f < |s.forwarders|
  {
    s.(forwarders := s.forwarders[f := s.forwarders[f].(stage := stage)])
  }

  /** One step; an action that is not possible in this state changes nothing. */
  function Next(s: State, a: Action): State {
    match a
    case Spawn(p) => s.(tasks := s.tasks + [Task(p, Spawned)])
    case Look(t) =>
      if t < |s.tasks| && s.tasks[t].stage.Spawned?
      then SetTask(s, t, Looked(s.tasks[t].peer in s.sessions)) else s
    case Reserve(t, poisoned) =>
      if t < |s.tasks| && s.tasks[t].stage.Looked? then
        var p := s.tasks[t].peer;
        if poisoned || s.tasks[t].stage.live || p in s.connecting then SetTask(s, t, Returned)
        else SetTask(s, t, Working).(connecting := s.connecting + {p})
      else s
    case Fail(t) =>
      if t < |s.tasks| && s.tasks[t].stage.Working? then SetTask(s, t, Leaving) else s
    case Land(t) =>
      if t < |s.tasks| && s.tasks[t].stage.Working?
      then SetTask(s, t, Landed).(sessions := s.sessions + {s.tasks[t].peer}) else s
    case Announce(t) =>
      if t < |s.tasks| && s.tasks[t].stage.Landed? then
        var p := s.tasks[t].peer;
        SetTask(s, t, Leaving).(trace := s.trace + [SessionUp(p)], forwarders := s.forwarders + [Forwarder(p, Relaying)])
      else s
    case DropGuard(t) =>
      if t < |s.tasks| && s.tasks[t].stage.Leaving?
      then SetTask(s, t, Returned).(connecting := s.connecting - {s.tasks[t].peer}) else s
    case Forward(f) =>
      if f < |s.forwarders| && s.forwarders[f].stage.Relaying?
      then s.(trace := s.trace + [MessageArrived(s.forwarders[f].peer)]) else s
    case SessionEnds(f) =>
      if f < |s.forwarders| && s.forwarders[f].stage.Relaying?
      then SetForwarder(s, f, Removed).(sessions := s.sessions - {s.forwarders[f].peer}) else s
    case ReportDown(f) =>
      if f < |s.forwarders| && s.forwarders[f].stage.Removed?
      then SetForwarder(s, f, Finished).(trace := s.trace + [SessionDown(s.forwarders[f].peer)]) else s
    case DropSession(p) => s.(sessions := s.sessions - {p})
    case Shutdown => s.(sessions := {})
  }

  function Run(acts: seq<Action>): State {
    if acts == [] then Initial else Next(Run(acts[..|acts| - 1]), acts[|acts| - 1])
  }

  // ---- Reservations ---------------------------------------------------------------

  /** Between reserving and releasing. */
  predicate Holding(t: Task) {
    t.stage.Working? || t.stage.Landed? || t.stage.Leaving?
  }

  ghost predicate Reserved(s: State) {
    && (forall p :: p in s.connecting <==> exists t :: 0 <= t < |s.tasks| && Holding(s.tasks[t]) && s.tasks[t].peer == p)
    && (forall t, u :: 0 <= t < u < |s.tasks| && Holding(s.tasks[t]) && Holding(s.tasks[u]) ==> s.tasks[t].peer != s.tasks[u].peer)
  }

  /** A task changing stage without starting or ceasing to hold, the set untouched. */
  lemma {:induction false} SameHolders(s: State, s': State)
    requires Reserved(s) && s'.connecting == s.connecting && |s'.tasks| >= |s.tasks|
    requires forall t :: 0 <= t < |s.tasks| ==> s'.tasks[t].peer == s.tasks[t].peer && (Holding(s'.tasks[t]) <==> Holding(s.tasks[t]))
    requires forall t :: |s.tasks| <= t < |s'.tasks| ==> !Holding(s'.tasks[t])
    ensures Reserved(s')
  {
    forall p ensures p in s'.connecting <==> exists t :: 0 <= t < |s'.tasks| && Holding(s'.tasks[t]) && s'.tasks[t].peer == p {
      if p in s.connecting {
        var t :| 0 <= t < |s.tasks| && Holding(s.tasks[t]) && s.tasks[t].peer == p;
        assert Holding(s'.tasks[t]) && s'.tasks[t].peer == p;
      }
    }
  }

  lemma {:induction false} TakesReservation(s: State, t: nat)
    requires Reserved(s) && t < |s.tasks| && !Holding(s.tasks[t]) && s.tasks[t].peer !in s.connecting
    ensures Reserved(SetTask(s, t, Working).(connecting := s.connecting + {s.tasks[t].peer}))
  {
    var s' := SetTask(s, t, Working).(connecting := s.connecting + {s.tasks[t].peer});
    assert Holding(s'.tasks[t]);
    forall p ensures p in s'.connecting <==> exists u :: 0 <= u < |s'.tasks| && Holding(s'.tasks[u]) && s'.tasks[u].peer == p {
      if p in s.connecting {
        var u :| 0 <= u < |s.tasks| && Holding(s.tasks[u]) && s.tasks[u].peer == p;
        assert Holding(s'.tasks[u]) && s'.tasks[u].peer == p;
      }
    }
  }

  lemma {:induction false} DropsReservation(s: State, t: nat)
    requires Reserved(s) && t < |s.tasks| && Holding(s.tasks[t])
    ensures Reserved(SetTask(s, t, Returned).(connecting := s.connecting - {s.tasks[t].peer}))
  {
    var s' := SetTask(s, t, Returned).(connecting := s.connecting - {s.tasks[t].peer});
    forall p ensures p in s'.connecting <==> exists u :: 0 <= u < |s'.tasks| && Holding(s'.tasks[u]) && s'.tasks[u].peer == p {
      if p in s'.connecting {
        var u :| 0 <= u < |s.tasks| && Holding(s.tasks[u]) && s.tasks[u].peer == p;
        assert Holding(s'.tasks[u]) && s'.tasks[u].peer == p;
      }
    }
  }

  lemma {:induction false} StepKeepsReserved(s: State, a: Action)
    requires Reserved(s)
    ensures Reserved(Next(s, a))
  {
    if a.Reserve? && a.t < |s.tasks| && s.tasks[a.t].stage.Looked? && Next(s, a).connecting != s.connecting {
      TakesReservation(s, a.t);
    } else if a.DropGuard? && a.t < |s.tasks| && s.tasks[a.t].stage.Leaving? {
      DropsReservation(s, a.t);
    } else {
      SameHolders(s, Next(s, a));
    }
  }

  /**
    Over every interleaving, the reservation set is exactly the set of peers with a
    task between reserve and release, and there is at most one such task per peer.
   */
  lemma {:induction false} ReservationIsExact(acts: seq<Action>)
    ensures Reserved(Run(acts))
    decreases |acts|
  {
    if acts != [] {
      ReservationIsExact(acts[..|acts| - 1]);
      StepKeepsReserved(Run(acts[..|acts| - 1]), acts[|acts| - 1]);
    }
  }

  /** Nobody but the holder itself, dropping its guard, ever clears a reservation. */
  lemma {:induction false} OnlyTheHolderReleases(acts: seq<Action>, a: Action, t: nat)
    requires t < |Run(acts).tasks| && Holding(Run(acts).tasks[t])
    ensures var p := Run(acts).tasks[t].peer;
            p !in Run(acts + [a]).connecting <==> a == DropGuard(t) && Run(acts).tasks[t].stage.Leaving?
  {
    var s := Run(acts);
    ReservationIsExact(acts);
    RunAppend(acts, a);
    if a.DropGuard? && a.t < |s.tasks| && s.tasks[a.t].stage.Leaving? && a.t != t {
      assert Holding(s.tasks[a.t]);
      assert s.tasks[a.t].peer != s.tasks[t].peer;
    }
  }

  /** Once every task of a peer has returned, by whatever path, the peer is free again. */
  lemma {:induction false} AllReturnedMeansFree(acts: seq<Action>, p: Peer)
    requires forall t :: 0 <= t < |Run(acts).tasks| && Run(acts).tasks[t].peer == p ==> Run(acts).tasks[t].stage.Returned?
    ensures p !in Run(acts).connecting
  {
    ReservationIsExact(acts);
  }

  // ---- Sessions up and down ---------------------------------------------------------

  function Ups(trace: seq<AppEvent>, p: Peer): nat {
    if trace == [] then 0
    else Ups(trace[..|trace| - 1], p) + if trace[|trace| - 1] == SessionUp(p) then 1 else 0
  }

  function Downs(trace: seq<AppEvent>, p: Peer): nat {
    if trace == [] then 0
    else Downs(trace[..|trace| - 1], p) + if trace[|trace| - 1] == SessionDown(p) then 1 else 0
  }

  /** Forwarders of `p` that have not yet reported their session down. */
  function LiveForwarders(fs: seq<Forwarder>, p: Peer): nat {
    if fs == [] then 0
    else LiveForwarders(fs[..|fs| - 1], p) +
         if fs[|fs| - 1].peer == p && !fs[|fs| - 1].stage.Finished? then 1 else 0
  }

  predicate CountsFor(f: Forwarder, p: Peer) {
    f.peer == p && !f.stage.Finished?
  }

  /** Changing one forwarder changes the count by its own contribution. */
  lemma {:induction false} CountAfterUpdate(fs: seq<Forwarder>, i: nat, g: Forwarder, p: Peer)
    requires i < |fs|
    ensures LiveForwarders(fs[i := g], p) ==
            LiveForwarders(fs, p) - (if CountsFor(fs[i], p) then 1 else 0) + (if CountsFor(g, p) then 1 else 0)
    decreases |fs|
  {
    var m := |fs| - 1;
    if i == m {
      assert fs[i := g][..m] == fs[..m];
    } else {
      assert fs[i := g][..m] == fs[..m][i := g];
      CountAfterUpdate(fs[..m], i, g, p);
    }
  }

  ghost predicate Balanced(trace: seq<AppEvent>, fs: seq<Forwarder>, p: Peer) {
    Ups(trace, p) == Downs(trace, p) + LiveForwarders(fs, p)
  }

  lemma {:induction false} CountsOfAppend(trace: seq<AppEvent>, e: AppEvent, p: Peer)
    ensures Ups(trace + [e], p) == Ups(trace, p) + if e == SessionUp(p) then 1 else 0
    ensures Downs(trace + [e], p) == Downs(trace, p) + if e == SessionDown(p) then 1 else 0
  {
    assert (trace + [e])[..|trace|] == trace;
  }

  lemma {:induction false} UpBalances(trace: seq<AppEvent>, fs: seq<Forwarder>, q: Peer, p: Peer)
    requires Balanced(trace, fs, p)
    ensures Balanced(trace + [SessionUp(q)], fs + [Forwarder(q, Relaying)], p)
  {
    CountsOfAppend(trace, SessionUp(q), p);
    assert (fs + [Forwarder(q, Relaying)])[..|fs|] == fs;
  }

  lemma {:induction false} ForwardBalances(trace: seq<AppEvent>, fs: seq<Forwarder>, q: Peer, p: Peer)
    requires Balanced(trace, fs, p)
    ensures Balanced(trace + [MessageArrived(q)], fs, p)
  {
    CountsOfAppend(trace, MessageArrived(q), p);
  }

  lemma {:induction false} EndBalances(trace: seq<AppEvent>, fs: seq<Forwarder>, f: nat, p: Peer)
    requires Balanced(trace, fs, p) && f < |fs| && fs[f].stage.Relaying?
    ensures Balanced(trace, fs[f := fs[f].(stage := Removed)], p)
  {
    CountAfterUpdate(fs, f, fs[f].(stage := Removed), p);
  }

  lemma {:induction false} DownBalances(trace: seq<AppEvent>, fs: seq<Forwarder>, f: nat, p: Peer)
    requires Balanced(trace, fs, p) && f < |fs| && fs[f].stage.Removed?
    ensures Balanced(trace + [SessionDown(fs[f].peer)], fs[f := fs[f].(stage := Finished)], p)
  {
    CountsOfAppend(trace, SessionDown(fs[f].peer), p);
    CountAfterUpdate(fs, f, fs[f].(stage := Finished), p);
  }

  lemma {:induction false} StepKeepsBalance(s: State, a: Action, p: Peer)
    requires Balanced(s.trace, s.forwarders, p)
    ensures Balanced(Next(s, a).trace, Next(s, a).forwarders, p)
  {
    var s' := Next(s, a);
    if s'.trace != s.trace || s'.forwarders != s.forwarders {
      match a
      case Announce(t) => UpBalances(s.trace, s.forwarders, s.tasks[t].peer, p);
      case Forward(f) => ForwardBalances(s.trace, s.forwarders, s.forwarders[f].peer, p);
      case SessionEnds(f) => EndBalances(s.trace, s.forwarders, f, p);
      case ReportDown(f) => DownBalances(s.trace, s.forwarders, f, p);
    }
  }

  /** After every run, sessions announced up and not yet down are exactly the live forwarder tasks, peer by peer. */
  lemma {:induction false} SessionsBalance(acts: seq<Action>, p: Peer)
    ensures Balanced(Run(acts).trace, Run(acts).forwarders, p)
    decreases |acts|
  {
    if acts != [] {
      SessionsBalance(acts[..|acts| - 1], p);
      StepKeepsBalance(Run(acts[..|acts| - 1]), acts[|acts| - 1], p);
    }
  }

  /** Every prefix of the application trace is itself the trace of a shorter run, so the balance holds there too. */
  lemma {:induction false} EveryTracePrefixBalances(acts: seq<Action>, n: nat, p: Peer) returns (m: nat)
    requires n <= |Run(acts).trace|
    ensures m <= |acts| && Run(acts[..m]).trace == Run(acts).trace[..n]
    ensures Ups(Run(acts).trace[..n], p) == Downs(Run(acts).trace[..n], p) + LiveForwarders(Run(acts[..m]).forwarders, p)
    decreases |acts|
  {
    if n == |Run(acts).trace| {
      m := |acts|;
      assert acts[..m] == acts && Run(acts).trace[..n] == Run(acts).trace;
      SessionsBalance(acts, p);
    } else {
      var k := |acts| - 1;
      m := EveryTracePrefixBalances(acts[..k], n, p);
      assert acts[..k][..m] == acts[..m];
    }
  }

  // ---- What the session map is ------------------------------------------------------

  lemma {:induction false} RunAppend(acts: seq<Action>, a: Action)
    ensures Run(acts + [a]) == Next(Run(acts), a)
  {
    assert (acts + [a])[..|acts|] == acts;
  }

  /** Action `a` puts a session of `p` into the map. */
  predicate Lands(s: State, a: Action, p: Peer) {
    a.Land? && a.t < |s.tasks| && s.tasks[a.t] == Task(p, Working)
  }

  /** Action `a` takes the entry of `p` out of the map, whichever session it stands for. */
  predicate Evicts(s: State, a: Action, p: Peer) {
    match a
    case DropSession(q) => q == p
    case Shutdown => true
    case SessionEnds(f) => f < |s.forwarders| && s.forwarders[f] == Forwarder(p, Relaying)
    case _ => false
  }

  predicate LandsAt(acts: seq<Action>, j: nat, p: Peer)
    requires j < |acts|
  {
    Lands(Run(acts[..j]), acts[j], p)
  }

  predicate EvictsAt(acts: seq<Action>, k: nat, p: Peer)
    requires k < |acts|
  {
    Evicts(Run(acts[..k]), acts[k], p)
  }

  /** Every landing of `p` was followed by an eviction. */
  ghost predicate Cleared(acts: seq<Action>, p: Peer) {
    forall j :: 0 <= j < |acts| && LandsAt(acts, j, p) ==> exists k :: j < k < |acts| && EvictsAt(acts, k, p)
  }

  lemma {:induction false} PrefixPasses(acts: seq<Action>, n: nat, k: nat, p: Peer)
    requires k < n <= |acts|
    ensures LandsAt(acts[..n], k, p) == LandsAt(acts, k, p) && EvictsAt(acts[..n], k, p) == EvictsAt(acts, k, p)
  {
    assert acts[..n][..k] == acts[..k];
  }

  lemma {:induction false} ClearedStep(acts: seq<Action>, p: Peer)
    requires acts != []
    ensures var m := |acts| - 1;
            Cleared(acts, p) <==> EvictsAt(acts, m, p) || (Cleared(acts[..m], p) && !LandsAt(acts, m, p))
  {
    var m := |acts| - 1;
    forall k | 0 <= k < m ensures LandsAt(acts[..m], k, p) == LandsAt(acts, k, p) && EvictsAt(acts[..m], k, p) == EvictsAt(acts, k, p) {
      PrefixPasses(acts, m, k, p);
    }
    if Cleared(acts, p) && !EvictsAt(acts, m, p) {
      forall j | 0 <= j < m && LandsAt(acts[..m], j, p) ensures exists k :: j < k < m && EvictsAt(acts[..m], k, p) {
        assert LandsAt(acts, j, p);
        var k :| j < k < |acts| && EvictsAt(acts, k, p);
        assert EvictsAt(acts[..m], k, p);
      }
    } else if Cleared(acts[..m], p) && !LandsAt(acts, m, p) {
      forall j | 0 <= j < |acts| && LandsAt(acts, j, p) ensures exists k :: j < k < |acts| && EvictsAt(acts, k, p) {
        assert LandsAt(acts[..m], j, p);
        var k :| j < k < m && EvictsAt(acts[..m], k, p);
        assert EvictsAt(acts, k, p);
      }
    }
  }

  lemma {:induction false} MapStep(s: State, a: Action, p: Peer)
    ensures p in Next(s, a).sessions <==> !Evicts(s, a, p) && (p in s.sessions || Lands(s, a, p))
  {
  }

  /** The map, told by what happened: a peer is absent exactly when every landing of it was followed by an eviction. */
  lemma {:induction false} MapIsHistory(acts: seq<Action>, p: Peer)
    ensures p !in Run(acts).sessions <==> Cleared(acts, p)
    decreases |acts|
  {
    if acts != [] {
      var m := |acts| - 1;
      MapIsHistory(acts[..m], p);
      ClearedStep(acts, p);
      MapStep(Run(acts[..m]), acts[m], p);
    }
  }

  ghost predicate HasRelay(s: State, p: Peer) {
    exists f :: 0 <= f < |s.forwarders| && s.forwarders[f] == Forwarder(p, Relaying)
  }

  ghost predicate HasLanded(s: State, p: Peer) {
    exists t :: 0 <= t < |s.tasks| && s.tasks[t] == Task(p, Landed)
  }

  /** Every entry in the map stands for a session that is running or about to be announced. */
  ghost predicate EntriesAreReal(s: State) {
    forall p :: p in s.sessions ==> HasRelay(s, p) || HasLanded(s, p)
  }

  lemma {:induction false} StepKeepsEntries(s: State, a: Action, p: Peer)
    requires EntriesAreReal(s) && p in Next(s, a).sessions
    ensures HasRelay(Next(s, a), p) || HasLanded(Next(s, a), p)
  {
    var s' := Next(s, a);
    if Lands(s, a, p) {
      assert s'.tasks[a.t] == Task(p, Landed);
    } else if HasRelay(s, p) {
      var f :| 0 <= f < |s.forwarders| && s.forwarders[f] == Forwarder(p, Relaying);
      assert s'.forwarders[f] == Forwarder(p, Relaying);
    } else {
      var t :| 0 <= t < |s.tasks| && s.tasks[t] == Task(p, Landed);
      if a == Announce(t) {
        assert s'.forwarders[|s.forwarders|] == Forwarder(p, Relaying);
      } else {
        assert s'.tasks[t] == Task(p, Landed);
      }
    }
  }

  /** Over every run, an entry in the session map stands for a relaying forwarder or for a landed task about to spawn one. */
  lemma {:induction false} MapEntriesAreReal(acts: seq<Action>)
    ensures EntriesAreReal(Run(acts))
    decreases |acts|
  {
    if acts != [] {
      var m := |acts| - 1;
      MapEntriesAreReal(acts[..m]);
      forall p | p in Run(acts).sessions ensures HasRelay(Run(acts), p) || HasLanded(Run(acts), p) {
        StepKeepsEntries(Run(acts[..m]), acts[m], p);
      }
    }
  }

  // ---- A reservation does not exclude a live session --------------------------------

  /** The steps of task `t` itself. */
  predicate StepOf(a: Action, t: nat) {
    match a
    case Look(u) => u == t
    case Reserve(u, _) => u == t
    case Fail(u) => u == t
    case Land(u) => u == t
    case Announce(u) => u == t
    case DropGuard(u) => u == t
    case _ => false
  }

  lemma {:induction false} OthersLeaveTaskAlone(acts: seq<Action>, mid: seq<Action>, t: nat)
    requires t < |Run(acts).tasks| && forall k :: 0 <= k < |mid| ==> !StepOf(mid[k], t)
    ensures t < |Run(acts + mid).tasks| && Run(acts + mid).tasks[t] == Run(acts).tasks[t]
    decreases |mid|
  {
    if mid == [] {
      assert acts + mid == acts;
    } else {
      var m := |mid| - 1;
      OthersLeaveTaskAlone(acts, mid[..m], t);
      assert (acts + mid)[..|acts + mid| - 1] == acts + mid[..m];
    }
  }

  /** The run of a task up to its reservation: a look at `|acts|`, then others' steps. */
  function Overtaken(acts: seq<Action>, t: nat, mid: seq<Action>): (all: seq<Action>)
    ensures |all| == |acts| + 1 + |mid| && all[..|acts|] == acts && all[|acts|] == Look(t)
  {
    acts + [Look(t)] + mid
  }

  /** Looking and then reserving works exactly when the map was empty at the look and nobody holds the peer at the end. */
  lemma {:induction false} WhenReserved(acts: seq<Action>, mid: seq<Action>, t: nat)
    requires t < |Run(acts).tasks| && Run(acts).tasks[t].stage.Spawned?
    requires forall k :: 0 <= k < |mid| ==> !StepOf(mid[k], t)
    ensures var p, all := Run(acts).tasks[t].peer, Overtaken(acts, t, mid);
            var s' := Run(all + [Reserve(t, false)]);
            && t < |s'.tasks| && s'.sessions == Run(all).sessions && s'.forwarders == Run(all).forwarders
            && (s'.tasks[t].stage.Working? <==> Cleared(acts, p) && p !in Run(all).connecting)
            && (s'.tasks[t].stage.Working? ==> s'.connecting == Run(all).connecting + {p})
            && (!s'.tasks[t].stage.Working? ==> s'.tasks[t].stage.Returned? && s'.connecting == Run(all).connecting)
  {
    MapIsHistory(acts, Run(acts).tasks[t].peer);
    RunAppend(acts, Look(t));
    OthersLeaveTaskAlone(acts + [Look(t)], mid, t);
    RunAppend(Overtaken(acts, t, mid), Reserve(t, false));
  }

  /**
    A task that looks, is overtaken by `mid`, and then tries to reserve ends up
    connecting to a peer in the session map exactly when everything that had landed
    by its look was evicted by then, something landed after it and stayed, and the
    task that landed it has let go of the peer.
   */
  lemma {:induction false} WhenLiveIsReserved(acts: seq<Action>, mid: seq<Action>, t: nat)
    requires t < |Run(acts).tasks| && Run(acts).tasks[t].stage.Spawned?
    requires forall k :: 0 <= k < |mid| ==> !StepOf(mid[k], t)
    ensures var p, all := Run(acts).tasks[t].peer, Overtaken(acts, t, mid);
            var s' := Run(all + [Reserve(t, false)]);
            && t < |s'.tasks|
            && (s'.tasks[t].stage.Working? && p in s'.sessions <==>
                && p !in Run(all).connecting && Cleared(acts, p)
                && exists j :: j > |acts| && StaysFrom(all, j, p))
  {
    var p, all := Run(acts).tasks[t].peer, Overtaken(acts, t, mid);
    WhenReserved(acts, mid, t);
    MapIsHistory(all, p);
    if Cleared(acts, p) && !Cleared(all, p) {
      var j :| 0 <= j < |all| && LandsAt(all, j, p) && !exists k :: j < k < |all| && EvictsAt(all, k, p);
      assert StaysFrom(all, j, p);
      if j < |acts| {
        PrefixPasses(all, |acts|, j, p);
        var k :| j < k < |acts| && EvictsAt(acts, k, p);
        PrefixPasses(all, |acts|, k, p);
      }
    }
  }

  /** A session of `p` landed at `j` and no eviction of `p` followed. */
  ghost predicate StaysFrom(acts: seq<Action>, j: nat, p: Peer) {
    j < |acts| && LandsAt(acts, j, p) && !exists k :: j < k < |acts| && EvictsAt(acts, k, p)
  }

  // ---- Reserving over a running session ----------------------------------------------

  /** Forwarder `f` relays the session of `p` that landed at `j`. */
  ghost predicate LandedAt(acts: seq<Action>, f: nat, p: Peer, j: nat) {
    && j < |acts| && LandsAt(acts, j, p)
    && exists k :: j < k < |acts| && acts[k] == Announce(acts[j].t) && Announces(Run(acts[..k]), acts[k], f, p)
  }

  predicate Announces(s: State, a: Action, f: nat, p: Peer) {
    a.Announce? && a.t < |s.tasks| && s.tasks[a.t] == Task(p, Landed) && |s.forwarders| == f
  }

  lemma {:induction false} LandedCameFrom(acts: seq<Action>, t: nat, p: Peer) returns (j: nat)
    requires t < |Run(acts).tasks| && Run(acts).tasks[t] == Task(p, Landed)
    ensures j < |acts| && acts[j] == Land(t) && LandsAt(acts, j, p)
    decreases |acts|
  {
    var m := |acts| - 1;
    if acts[m] == Land(t) && Lands(Run(acts[..m]), acts[m], p) {
      j := m;
    } else {
      j := LandedCameFrom(acts[..m], t, p);
      PrefixPasses(acts, m, j, p);
    }
  }

  lemma {:induction false} LandedAtKept(acts: seq<Action>, n: nat, f: nat, p: Peer, j: nat)
    requires n <= |acts| && LandedAt(acts[..n], f, p, j)
    ensures LandedAt(acts, f, p, j)
  {
    PrefixPasses(acts, n, j, p);
    var k :| j < k < n && acts[..n][k] == Announce(acts[j].t) && Announces(Run(acts[..n][..k]), acts[..n][k], f, p);
    assert acts[..n][..k] == acts[..k] && acts[..n][k] == acts[k];
  }

  /** Every forwarder relays a session that once landed. */
  lemma {:induction false} RelayCameFrom(acts: seq<Action>, f: nat) returns (j: nat)
    requires f < |Run(acts).forwarders|
    ensures LandedAt(acts, f, Run(acts).forwarders[f].peer, j)
    decreases |acts|
  {
    var m := |acts| - 1;
    var before := Run(acts[..m]);
    if f < |before.forwarders| {
      j := RelayCameFrom(acts[..m], f);
      LandedAtKept(acts, m, f, before.forwarders[f].peer, j);
    } else {
      var p := Run(acts).forwarders[f].peer;
      assert Announces(before, acts[m], f, p);
      j := LandedCameFrom(acts[..m], acts[m].t, p);
      PrefixPasses(acts, m, j, p);
    }
  }

  /** A forwarder that has stopped relaying never relays again. */
  lemma {:induction false} StoppedStays(acts: seq<Action>, n: nat, f: nat)
    requires n <= |acts| && f < |Run(acts[..n]).forwarders| && !Run(acts[..n]).forwarders[f].stage.Relaying?
    ensures f < |Run(acts).forwarders| && !Run(acts).forwarders[f].stage.Relaying?
    decreases |acts|
  {
    if n == |acts| {
      assert acts[..n] == acts;
    } else {
      var m := |acts| - 1;
      assert acts[..m][..n] == acts[..n];
      StoppedStays(acts[..m], n, f);
      StoppedStep(Run(acts[..m]), acts[m], f);
    }
  }

  lemma {:induction false} StoppedStep(s: State, a: Action, f: nat)
    requires f < |s.forwarders| && !s.forwarders[f].stage.Relaying?
    ensures f < |Next(s, a).forwarders| && !Next(s, a).forwarders[f].stage.Relaying?
  {
  }

  /** While forwarder `f` relays, its own end is not among the evictions. */
  lemma {:induction false} EvictedByAnother(acts: seq<Action>, k: nat, f: nat, p: Peer)
    requires k < |acts| && EvictsAt(acts, k, p)
    requires f < |Run(acts).forwarders| && Run(acts).forwarders[f].stage.Relaying?
    ensures acts[k] != SessionEnds(f)
  {
    if acts[k] == SessionEnds(f) {
      RunAppend(acts[..k], acts[k]);
      assert acts[..k] + [acts[k]] == acts[..k + 1];
      StoppedStays(acts, k + 1, f);
    }
  }

  /** The session behind forwarder `f` landed after the look, at which nothing that had landed was left. */
  ghost predicate OvertookTheLook(acts: seq<Action>, all: seq<Action>, f: nat, p: Peer) {
    Cleared(acts, p) && exists j :: j > |acts| && LandedAt(all, f, p, j)
  }

  /** At `k`, after `f`'s session landed and before the look, something other than its own end evicted it, and nothing landed since. */
  ghost predicate EvictedAt(acts: seq<Action>, f: nat, p: Peer, k: nat) {
    && k < |acts| && EvictsAt(acts, k, p) && acts[k] != SessionEnds(f)
    && forall i :: k < i < |acts| ==> !LandsAt(acts, i, p)
  }

  ghost predicate EvictedBeforeTheLook(acts: seq<Action>, all: seq<Action>, f: nat, p: Peer) {
    exists j: nat, k: nat :: j < k && LandedAt(all, f, p, j) && EvictedAt(acts, f, p, k)
  }

  /** If everything was cleared after a landing at `j`, there is a last eviction, after `j`, with no landing since. */
  lemma {:induction false} LastEviction(acts: seq<Action>, p: Peer, j: nat, n: nat) returns (k: nat)
    requires Cleared(acts, p) && j < n <= |acts| && LandsAt(acts, j, p)
    requires forall i :: n <= i < |acts| ==> !EvictsAt(acts, i, p)
    ensures j < k < |acts| && EvictsAt(acts, k, p)
    ensures forall i :: k < i < |acts| ==> !LandsAt(acts, i, p)
    decreases n
  {
    var l :| j < l < |acts| && EvictsAt(acts, l, p);
    if EvictsAt(acts, n - 1, p) {
      k := n - 1;
    } else {
      k := LastEviction(acts, p, j, n - 1);
    }
  }

  lemma {:induction false} ClearedByEviction(acts: seq<Action>, f: nat, p: Peer, k: nat)
    requires EvictedAt(acts, f, p, k)
    ensures Cleared(acts, p)
  {
    forall j | 0 <= j < |acts| && LandsAt(acts, j, p) ensures exists k :: j < k < |acts| && EvictsAt(acts, k, p) {
      assert !(k < j) && j != k;
    }
  }

  /**
    A task starts connecting to a peer while forwarder `f` still relays a session
    of it exactly when nobody holds the peer and one of two things happened: that
    session landed after the task's look, or its map entry had been evicted before
    the look by a purge, a removal, a failed send, a shutdown or the end of another
    session of that peer.
   */
  lemma {:induction false} WhenRelayingIsReserved(acts: seq<Action>, mid: seq<Action>, t: nat, f: nat)
    requires t < |Run(acts).tasks| && Run(acts).tasks[t].stage.Spawned?
    requires forall k :: 0 <= k < |mid| ==> !StepOf(mid[k], t)
    requires var s := Run(Overtaken(acts, t, mid));
             f < |s.forwarders| && s.forwarders[f] == Forwarder(Run(acts).tasks[t].peer, Relaying)
    ensures var p, all := Run(acts).tasks[t].peer, Overtaken(acts, t, mid);
            var s' := Run(all + [Reserve(t, false)]);
            && t < |s'.tasks| && f < |s'.forwarders| && s'.forwarders[f] == Forwarder(p, Relaying)
            && (s'.tasks[t].stage.Working? <==>
                p !in Run(all).connecting && (OvertookTheLook(acts, all, f, p) || EvictedBeforeTheLook(acts, all, f, p)))
  {
    var p, all := Run(acts).tasks[t].peer, Overtaken(acts, t, mid);
    WhenReserved(acts, mid, t);
    if Cleared(acts, p) {
      ClearedHasCause(acts, all, f, p);
    } else if EvictedBeforeTheLook(acts, all, f, p) {
      var j: nat, k: nat :| j < k && LandedAt(all, f, p, j) && EvictedAt(acts, f, p, k);
      ClearedByEviction(acts, f, p, k);
    }
  }

  lemma {:induction false} ClearedHasCause(acts: seq<Action>, all: seq<Action>, f: nat, p: Peer)
    requires |acts| < |all| && all[..|acts|] == acts && all[|acts|].Look? && Cleared(acts, p)
    requires f < |Run(all).forwarders| && Run(all).forwarders[f] == Forwarder(p, Relaying)
    ensures OvertookTheLook(acts, all, f, p) || EvictedBeforeTheLook(acts, all, f, p)
  {
    var n := |acts|;
    var j := RelayCameFrom(all, f);
    if j < n {
      PrefixPasses(all, n, j, p);
      var k := LastEviction(acts, p, j, n);
      PrefixPasses(all, n, k, p);
      EvictedByAnother(all, k, f, p);
      assert EvictedAt(acts, f, p, k);
    }
  }

  // ---- While an attempt is running -----------------------------------------------------

  /** From the reservation on. */
  predicate Past(stage: Stage) {
    stage.Working? || stage.Landed? || stage.Leaving? || stage.Returned?
  }

  /** Task `t` has reserved `p`, and while its attempt runs the map holds no session of `p`. */
  predicate AloneWith(s: State, t: nat, p: Peer) {
    t < |s.tasks| && s.tasks[t].peer == p && Past(s.tasks[t].stage) && (s.tasks[t].stage.Working? ==> p !in s.sessions)
  }

  lemma {:induction false} AloneStep(s: State, a: Action, t: nat, p: Peer)
    requires Reserved(s) && AloneWith(s, t, p)
    ensures AloneWith(Next(s, a), t, p)
  {
    PastStep(s, a, t);
    if a.Land? && a.t < |s.tasks| && s.tasks[a.t].stage.Working? && a.t != t && Holding(s.tasks[t]) {
      assert Holding(s.tasks[a.t]);
      assert s.tasks[a.t].peer != s.tasks[t].peer;
    }
  }

  /** A peer reserved while absent from the map stays absent for as long as the attempt runs. */
  lemma {:induction false} AbsentWhileWorking(acts: seq<Action>, more: seq<Action>, t: nat, p: Peer)
    requires AloneWith(Run(acts), t, p)
    ensures AloneWith(Run(acts + more), t, p)
    decreases |more|
  {
    if more == [] {
      assert acts + more == acts;
    } else {
      var m := |more| - 1;
      var before := acts + more[..m];
      AbsentWhileWorking(acts, more[..m], t, p);
      ReservationIsExact(before);
      AloneStep(Run(before), more[m], t, p);
      RunAppend(before, more[m]);
      assert before + [more[m]] == acts + more;
    }
  }

  lemma {:induction false} PastStays(acts: seq<Action>, more: seq<Action>, t: nat)
    requires t < |Run(acts).tasks| && Past(Run(acts).tasks[t].stage)
    ensures var s := Run(acts + more);
            t < |s.tasks| && s.tasks[t].peer == Run(acts).tasks[t].peer && Past(s.tasks[t].stage)
    decreases |more|
  {
    if more == [] {
      assert acts + more == acts;
    } else {
      var m := |more| - 1;
      var before := acts + more[..m];
      PastStays(acts, more[..m], t);
      PastStep(Run(before), more[m], t);
      RunAppend(before, more[m]);
      assert before + [more[m]] == acts + more;
    }
  }

  lemma {:induction false} PastStep(s: State, a: Action, t: nat)
    requires t < |s.tasks| && Past(s.tasks[t].stage)
    ensures t < |Next(s, a).tasks| && Next(s, a).tasks[t].peer == s.tasks[t].peer && Past(Next(s, a).tasks[t].stage)
  {
  }

  lemma {:induction false} NoNewRelay(s: State, a: Action, t: nat, f: nat)
    requires Reserved(s) && t < |s.tasks| && Past(s.tasks[t].stage)
    requires var s' := Next(s, a);
             s'.tasks[t].stage.Working? && f < |s'.forwarders| && s'.forwarders[f] == Forwarder(s.tasks[t].peer, Relaying)
    ensures s.tasks[t].stage.Working? && f < |s.forwarders| && s.forwarders[f] == Forwarder(s.tasks[t].peer, Relaying)
  {
    if a.Announce? && a.t < |s.tasks| && s.tasks[a.t].stage.Landed? {
      assert Holding(s.tasks[a.t]) && Holding(s.tasks[t]);
    }
  }

  /** Any session that relays while an attempt runs was already relaying when the attempt was reserved. */
  lemma {:induction false} RelaysPredateAttempt(acts: seq<Action>, more: seq<Action>, t: nat, f: nat)
    requires t < |Run(acts).tasks| && Run(acts).tasks[t].stage.Working?
    requires var s := Run(acts + more);
             && t < |s.tasks| && s.tasks[t].stage.Working?
             && f < |s.forwarders| && s.forwarders[f] == Forwarder(Run(acts).tasks[t].peer, Relaying)
    ensures f < |Run(acts).forwarders| && Run(acts).forwarders[f] == Forwarder(Run(acts).tasks[t].peer, Relaying)
    decreases |more|
  {
    if more == [] {
      assert acts + more == acts;
    } else {
      var m := |more| - 1;
      var before := acts + more[..m];
      PastStays(acts, more[..m], t);
      ReservationIsExact(before);
      RunAppend(before, more[m]);
      assert before + [more[m]] == acts + more;
      NoNewRelay(Run(before), more[m], t, f);
      RelaysPredateAttempt(acts, more[..m], t, f);
    }
  }

  // ---- Runs in which it happens ----------------------------------------------------------

  /** One more action. */
  lemma {:induction false} Then(acts: seq<Action>, a: Action) returns (longer: seq<Action>)
    ensures longer == acts + [a] && Run(longer) == Next(Run(acts), a)
  {
    RunAppend(acts, a);
    longer := acts + [a];
  }

  /** A reserved task lands, is announced and leaves. */
  lemma {:induction false} LandsAndLeaves(acts: seq<Action>, t: nat) returns (longer: seq<Action>)
    requires t < |Run(acts).tasks| && Run(acts).tasks[t].stage.Working?
    ensures var s, s' := Run(acts), Run(longer);
            var p := s.tasks[t].peer;
            && s'.tasks == s.tasks[t := Task(p, Returned)] && s'.connecting == s.connecting - {p}
            && s'.sessions == s.sessions + {p} && s'.forwarders == s.forwarders + [Forwarder(p, Relaying)]
  {
    longer := Then(acts, Land(t));
    longer := Then(longer, Announce(t));
    longer := Then(longer, DropGuard(t));
  }

  lemma {:induction false} BothLooked(p: Peer) returns (acts: seq<Action>)
    ensures Run(acts) == State([Task(p, Looked(false)), Task(p, Looked(false))], {}, {}, [], [])
  {
    acts := [];
    acts := Then(acts, Spawn(p));
    acts := Then(acts, Spawn(p));
    acts := Then(acts, Look(0));
    acts := Then(acts, Look(1));
  }

  /** The first of two tasks lands and leaves between the second one's look and its reservation. */
  lemma {:induction false} LiveCanBeReserved(p: Peer) returns (acts: seq<Action>)
    ensures var s := Run(acts);
            && s.tasks == [Task(p, Returned), Task(p, Working)] && s.connecting == {p}
            && s.sessions == {p} && s.forwarders == [Forwarder(p, Relaying)]
  {
    acts := BothLooked(p);
    acts := Then(acts, Reserve(0, false));
    acts := LandsAndLeaves(acts, 0);
    assert Run(acts).connecting == {};
    acts := Then(acts, Reserve(1, false));
  }

  /** A purge, removal or failed send evicts a running session; the next task looks and reserves with nothing in between. */
  lemma {:induction false} EvictedSessionIsReserved(p: Peer) returns (acts: seq<Action>)
    ensures var s := Run(acts);
            && s.tasks == [Task(p, Returned), Task(p, Working)] && s.connecting == {p}
            && s.sessions == {} && s.forwarders == [Forwarder(p, Relaying)]
    ensures |acts| >= 3 && acts[|acts| - 3..] == [Spawn(p), Look(1), Reserve(1, false)]
  {
    acts := Then([], Spawn(p));
    acts := Then(acts, Look(0));
    acts := Then(acts, Reserve(0, false));
    acts := LandsAndLeaves(acts, 0);
    acts := Then(acts, DropSession(p));
    assert Run(acts).connecting == {} && Run(acts).sessions == {};
    acts := Then(acts, Spawn(p));
    acts := Then(acts, Look(1));
    acts := Then(acts, Reserve(1, false));
  }

  /** Of two sessions of one peer, the older one's end evicts the newer one, which is then reserved over. */
  lemma {:induction false} OlderEndEvictsNewer(p: Peer) returns (acts: seq<Action>)
    ensures var s := Run(acts);
            && s.tasks == [Task(p, Returned), Task(p, Returned), Task(p, Working)]
            && s.sessions == {} && s.forwarders == [Forwarder(p, Removed), Forwarder(p, Relaying)]
  {
    acts := EvictedSessionIsReserved(p);
    acts := LandsAndLeaves(acts, 1);
    acts := Then(acts, SessionEnds(0));
    assert Run(acts).connecting == {} && Run(acts).sessions == {};
    acts := Then(acts, Spawn(p));
    acts := Then(acts, Look(2));
    acts := Then(acts, Reserve(2, false));
  }

  // ---- Whole lives ---------------------------------------------------------------------------

  /** Message events, one per message forwarded. */
  function Arrivals(p: Peer, n: nat): seq<AppEvent> {
    if n == 0 then [] else Arrivals(p, n - 1) + [MessageArrived(p)]
  }

  /** A relaying forwarder passes on `n` messages. */
  lemma {:induction false} ForwardsAll(acts: seq<Action>, f: nat, n: nat) returns (longer: seq<Action>)
    requires f < |Run(acts).forwarders| && Run(acts).forwarders[f].stage.Relaying?
    ensures var s := Run(acts);
            Run(longer) == s.(trace := s.trace + Arrivals(s.forwarders[f].peer, n))
    decreases n
  {
    if n == 0 {
      longer := acts;
      assert Run(acts).trace + [] == Run(acts).trace;
    } else {
      longer := ForwardsAll(acts, f, n - 1);
      longer := Then(longer, Forward(f));
    }
  }

  /** The state in which the only task has just landed its session. */
  lemma {:induction false} FirstLands(p: Peer) returns (acts: seq<Action>)
    ensures Run(acts) == State([Task(p, Landed)], {p}, {p}, [], [])
  {
    acts := Then([], Spawn(p));
    acts := Then(acts, Look(0));
    acts := Then(acts, Reserve(0, false));
    acts := Then(acts, Land(0));
  }

  /**
    The life of a session, to its end: it is announced up once, each of its messages
    is reported, it is announced down once, and nothing is left behind.
   */
  lemma {:induction false} SessionLife(p: Peer, n: nat) returns (acts: seq<Action>)
    ensures Run(acts) == State([Task(p, Returned)], {}, {}, [Forwarder(p, Finished)], [SessionUp(p)] + Arrivals(p, n) + [SessionDown(p)])
  {
    acts := FirstLands(p);
    acts := Then(acts, Announce(0));
    acts := Then(acts, DropGuard(0));
    acts := ForwardsAll(acts, 0, n);
    acts := Then(acts, SessionEnds(0));
    acts := Then(acts, ReportDown(0));
  }

  /** An attempt that fails, and one that finds the reservation lock broken, leave no trace. */
  lemma {:induction false} FailedLife(p: Peer, poisoned: bool) returns (acts: seq<Action>)
    ensures Run(acts) == State([Task(p, Returned)], {}, {}, [], [])
  {
    acts := Then([], Spawn(p));
    acts := Then(acts, Look(0));
    acts := Then(acts, Reserve(0, poisoned));
    if !poisoned {
      acts := Then(acts, Fail(0));
      acts := Then(acts, DropGuard(0));
    }
  }
}
