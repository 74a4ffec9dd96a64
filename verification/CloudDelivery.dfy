/**
  What becomes of an order once it is taken in: it is launched when it is due, and it does not drop
  out of sight as long as the process lives.
 */
module CloudDelivery {
  import opened CloudProtocol
  import opened CloudInvariants
  import opened CloudTheorems
  import opened CloudLaunches
  import opened CloudQueue

  // --- no order is lost ---------------------------------------------------------------------

  /** The order has a run, or an outcome was published for it, or it is queued. */
  ghost predicate Tracked(s: State, o: OrderId) {
    HasRun(s.runs, o) || HasEntry(s.finished, o) || Usable(o) in s.pending
  }

  lemma GrowsKeeps(s: State, t: State, o: OrderId)
    requires Grows(s, t)
    ensures HasRun(s.runs, o) ==> HasRun(t.runs, o)
    ensures HasEntry(s.finished, o) ==> HasEntry(t.finished, o)
  {
    ScrollGrows(s.finished, t.finished, o);
    if HasRun(s.runs, o) {
      var a :| a in s.runs && s.runs[a].order == o;
      assert t.runs[a].order == o;
    }
  }

  lemma TurnGrows(s: State, signal: Signal, env: LaunchEnv)
    requires Reachable(s)
    ensures Grows(s, HandleOrder(s, signal, env).0)
  {
    HandleOrderLeavesRuns(s, signal, env);
  }

  /** After its turn an order has a run or an entry, or stays queued. */
  lemma TurnTracks(s: State, o: OrderId, env: LaunchEnv)
    requires Reachable(s)
    ensures var t := HandleOrder(s, Usable(o), env).0;
            HasRun(t.runs, o) || HasEntry(t.finished, o) || Kept(s, Usable(o), env)
  {
    TurnGrows(s, Usable(o), env);
    GrowsKeeps(s, HandleOrder(s, Usable(o), env).0, o);
    if !HasRun(s.runs, o) && !RecentFor(s.finished, o) && WillLaunch(s, Usable(o), env) {
      WillLaunchMeaning(s, Usable(o), env);
      LaunchDecides(Tick(s, env.waited), o, env);
      RetryIsKept(s, Usable(o), env);
    }
  }

  lemma {:induction false} TurnsTrack(s: State, queue: seq<Signal>, envs: seq<LaunchEnv>, j: nat, k: nat, o: OrderId)
    requires Reachable(s) && |envs| == |queue| && j < k <= |queue| && queue[j] == Usable(o)
    ensures var t := Before(s, queue, envs, k);
            HasRun(t.runs, o) || HasEntry(t.finished, o) || Usable(o) in StillBefore(s, queue, envs, k)
    decreases k
  {
    var n := k - 1;
    var u := Before(s, queue, envs, n);
    BeforeReachable(s, queue, envs, n);
    BeforeNext(s, queue, envs, n);
    StillNext(s, queue, envs, n);
    if j == n {
      TurnTracks(u, o, envs[n]);
    } else {
      TurnsTrack(s, queue, envs, j, n, o);
      TurnGrows(u, queue[n], envs[n]);
      GrowsKeeps(u, Before(s, queue, envs, k), o);
    }
  }

  lemma PollTracks(s: State, signals: seq<Signal>, envs: nat -> LaunchEnv, o: OrderId)
    requires Reachable(s) && Usable(o) in Queue(s, signals)
    ensures Tracked(PollOrders(s, signals, envs).0, o)
  {
    var queue := Queue(s, signals);
    var s0, es := s.(pending := queue), EnvsOf(queue, envs);
    var j :| 0 <= j < |queue| && queue[j] == Usable(o);
    TurnsTrack(s0, queue, es, j, |queue|, o);
    PollEnds(s, signals, envs);
    assert queue[..|queue|] == queue && es[..|queue|] == es;
  }

  lemma EventTracks(s: State, e: Event, o: OrderId)
    requires Reachable(s) && Tracked(s, o) && !e.Restart?
    ensures Tracked(Apply(s, e), o)
  {
    ApplyGrows(s, e);
    GrowsKeeps(s, Apply(s, e), o);
    if Usable(o) in s.pending {
      match e
      case OrderPoll(signals, envs) => PollTracks(s, signals, envs, o);
      case RunSweep(force, waited, scan, env) => PollRunsMemory(s, force, waited, scan, env);
      case OperatorReject(q, cancelled) => RejectMemory(s, q, cancelled);
      case _ =>
    }
  }

  lemma {:induction false} EventsTrack(s: State, events: seq<Event>, o: OrderId)
    requires Reachable(s) && Tracked(s, o) && AllWellFormed(events)
    requires forall e :: e in events ==> !e.Restart?
    ensures Tracked(After(s, events), o)
    decreases |events|
  {
    if events != [] {
      assert events[0] in events;
      EventTracks(s, events[0], o);
      ApplyKeeps(s, events[0]);
      ApplyHeld(s, events[0]);
      EventsTrack(Apply(s, events[0]), events[1..], o);
    }
  }

  /** Over every history, an order that a poll took in has a run, or a published outcome, or is
      queued, as long as the process lives on. */
  lemma NoOrderIsLost(cfg: Config, clock: real, before: seq<Event>, signals: seq<Signal>, envs: nat -> LaunchEnv,
                      after: seq<Event>, o: OrderId)
    requires clock >= 0.0 && AllWellFormed(before) && AllWellFormed(after) && Usable(o) in signals
    requires forall e :: e in after ==> !e.Restart?
    ensures Tracked(After(Apply(Reached(cfg, clock, before), OrderPoll(signals, envs)), after), o)
  {
    var s := Reached(cfg, clock, before);
    HistoriesReach(cfg, clock, before);
    PollTracks(s, signals, envs, o);
    ApplyKeeps(s, OrderPoll(signals, envs));
    ApplyHeld(s, OrderPoll(signals, envs));
    EventsTrack(Apply(s, OrderPoll(signals, envs)), after, o);
  }

  // --- a due order is launched ----------------------------------------------------------------

  /** Nothing stands in the way of launching o. */
  ghost predicate Ready(s: State, o: OrderId) {
    !HasRun(s.runs, o) && !RecentFor(s.finished, o) && Due(s, o)
  }

  /** Between two states o got no run, no entry, no launch and no longer delay. */
  ghost predicate Passes(u: State, v: State, o: OrderId) {
    && (HasRun(v.runs, o) ==> HasRun(u.runs, o)) && (RecentFor(v.finished, o) ==> RecentFor(u.finished, o))
    && LaunchCount(v.launches, o) == LaunchCount(u.launches, o)
    && (Due(u, o) ==> Due(v, o))
  }

  lemma PassesOn(u: State, v: State, w: State, o: OrderId)
    requires Passes(u, v, o) && Passes(v, w, o)
    ensures Passes(u, w, o)
  {
  }

  /** A launch of one order passes another by. */
  lemma LaunchPasses(s: State, q: OrderId, env: LaunchEnv, o: OrderId)
    requires q != o && Numbered(s) && !HasRun(s.runs, q)
    ensures Passes(s, Launched(s, q, env), o)
  {
    var t := Launched(s, q, env);
    LaunchWrites(s, q, env);
    LaunchLogged(s, q, env);
    CountAppend(s.launches, t.launches[|s.launches|], o);
    if RecentFor(t.finished, o) {
      var i :| 0 <= i < |t.finished| && Recent(t.finished, i) && t.finished[i].order == o;
      assert i < |s.finished| && s.finished[i] == t.finished[i];
    }
  }

  lemma TurnPasses(s: State, signal: Signal, env: LaunchEnv, o: OrderId)
    requires Reachable(s) && signal != Usable(o)
    ensures Passes(s, HandleOrder(s, signal, env).0, o)
  {
    var s1 := Tick(s, env.waited);
    assert Passes(s, s1, o);
    if signal.Usable? && CallsLaunch(s1, signal.order) {
      LaunchPasses(s1, signal.order, env, o);
      PassesOn(s, s1, Launched(s1, signal.order, env), o);
    }
  }

  lemma {:induction false} TurnsPass(s: State, queue: seq<Signal>, envs: seq<LaunchEnv>, k: nat, m: nat, o: OrderId)
    requires Reachable(s) && |envs| == |queue| && k <= m <= |queue|
    requires forall i :: k <= i < m ==> queue[i] != Usable(o)
    ensures Passes(Before(s, queue, envs, k), Before(s, queue, envs, m), o)
    decreases m
  {
    if k < m {
      var n := m - 1;
      TurnsPass(s, queue, envs, k, n, o);
      BeforeReachable(s, queue, envs, n);
      BeforeNext(s, queue, envs, n);
      TurnPasses(Before(s, queue, envs, n), queue[n], envs[n], o);
      PassesOn(Before(s, queue, envs, k), Before(s, queue, envs, n), Before(s, queue, envs, m), o);
    }
  }

  /** Launches are only added. */
  lemma {:induction false} CountGrows(s: State, queue: seq<Signal>, envs: seq<LaunchEnv>, k: nat, m: nat, o: OrderId)
    requires Reachable(s) && |envs| == |queue| && k <= m <= |queue|
    ensures LaunchCount(Before(s, queue, envs, m).launches, o) >= LaunchCount(Before(s, queue, envs, k).launches, o)
    decreases m
  {
    if k < m {
      var n := m - 1;
      CountGrows(s, queue, envs, k, n, o);
      BeforeReachable(s, queue, envs, n);
      BeforeNext(s, queue, envs, n);
      TurnLaunchesIff(Before(s, queue, envs, n), queue[n], envs[n]);
      CountTurn(Before(s, queue, envs, n), queue[n], envs[n], o);
    }
  }

  lemma CountTurn(s: State, signal: Signal, env: LaunchEnv, o: OrderId)
    requires Reachable(s)
    ensures LaunchCount(HandleOrder(s, signal, env).0.launches, o) ==
              LaunchCount(s.launches, o) + if WillLaunch(s, signal, env) && signal.order == o then 1 else 0
  {
    TurnLaunchesIff(s, signal, env);
    if WillLaunch(s, signal, env) {
      CountAppend(s.launches, HandleOrder(s, signal, env).0.launches[|s.launches|], o);
    }
  }

  lemma DueAtItsTurn(s: State, queue: seq<Signal>, envs: seq<LaunchEnv>, k: nat, o: OrderId)
    requires Reachable(s) && Ready(s, o) && |envs| == |queue|
    requires k < |queue| && queue[k] == Usable(o) && forall i :: 0 <= i < k ==> queue[i] != Usable(o)
    ensures LaunchCount(Before(s, queue, envs, k + 1).launches, o) == LaunchCount(s.launches, o) + 1
  {
    TurnsPass(s, queue, envs, 0, k, o);
    BeforeEnds(s, queue, envs);
    BeforeReachable(s, queue, envs, k);
    CountTurn(Before(s, queue, envs, k), queue[k], envs[k], o);
    BeforeNext(s, queue, envs, k);
  }

  /** A queued order without a run or an entry that can be seen, whose delays are over, is launched
      by the next poll: at the first place it stands in the queue, and once when it stands there once. */
  lemma DueOrderIsLaunched(s: State, signals: seq<Signal>, envs: nat -> LaunchEnv, k: nat, o: OrderId)
    requires Reachable(s) && Ready(s, o)
    requires var queue := Queue(s, signals);
             k < |queue| && queue[k] == Usable(o) && forall i :: 0 <= i < k ==> queue[i] != Usable(o)
    ensures var queue, t := Queue(s, signals), PollOrders(s, signals, envs).0;
            && LaunchCount(t.launches, o) >= LaunchCount(s.launches, o) + 1
            && ((forall i :: k < i < |queue| ==> queue[i] != Usable(o)) ==>
                  LaunchCount(t.launches, o) == LaunchCount(s.launches, o) + 1)
  {
    var queue := Queue(s, signals);
    var s0, es := s.(pending := queue), EnvsOf(queue, envs);
    DueAtItsTurn(s0, queue, es, k, o);
    BeforeEnds(s0, queue, es);
    CountGrows(s0, queue, es, k + 1, |queue|, o);
    if forall i :: k < i < |queue| ==> queue[i] != Usable(o) { TurnsPass(s0, queue, es, k + 1, |queue|, o); }
  }

  // --- a restart forgets -----------------------------------------------------------------------

  /** Nobody delivers a signal for o. */
  ghost predicate NotDelivered(events: seq<Event>, o: OrderId) {
    forall e :: e in events && e.OrderPoll? ==> Usable(o) !in e.signals
  }

  lemma {:induction false} StillFromQueue(s: State, queue: seq<Signal>, envs: seq<LaunchEnv>)
    requires |envs| == |queue|
    ensures forall x :: x in DrainOrders(s, queue, envs).2 ==> x in queue
    decreases |queue|
  {
    if queue != [] {
      var n := |queue| - 1;
      StillFromQueue(s, queue[..n], envs[..n]);
      assert queue == queue[..n] + [queue[n]];
    }
  }

  /** The order is neither registered nor queued, and was not launched in this generation. */
  ghost predicate Unknown(s: State, o: OrderId) {
    !HasRun(s.runs, o) && Usable(o) !in s.pending && LaunchCount(s.launches, o) == 0
  }

  lemma EventKeepsUnknown(s: State, e: Event, o: OrderId)
    requires Reachable(s) && Unknown(s, o) && (e.OrderPoll? ==> Usable(o) !in e.signals)
    ensures Unknown(Apply(s, e), o)
  {
    match e
    case OrderPoll(signals, envs) =>
      var queue := Queue(s, signals);
      var s0, es := s.(pending := queue), EnvsOf(queue, envs);
      TurnsPass(s0, queue, es, 0, |queue|, o);
      BeforeEnds(s0, queue, es);
      StillFromQueue(s0, queue, es);
    case RunSweep(force, waited, scan, env) => PollRunsMemory(s, force, waited, scan, env);
    case OperatorReject(q, cancelled) => RejectMemory(s, q, cancelled);
    case _ =>
  }

  /** An order that waited in the queue when the process restarted is forgotten: unless its signal is
      published again it is never launched and never gets a run, whatever else happens. */
  lemma RestartForgets(s: State, events: seq<Event>, o: OrderId)
    requires Reachable(s) && !HasRun(s.runs, o) && AllWellFormed(events) && NotDelivered(events, o)
    ensures Unknown(After(Restarted(s), events), o)
  {
    ApplyKeeps(s, Restart);
    ApplyHeld(s, Restart);
    EventsKeepUnknown(Restarted(s), events, o);
  }

  lemma {:induction false} EventsKeepUnknown(s: State, events: seq<Event>, o: OrderId)
    requires Reachable(s) && Unknown(s, o) && AllWellFormed(events) && NotDelivered(events, o)
    ensures Unknown(After(s, events), o)
    decreases |events|
  {
    if events != [] {
      assert events[0] in events;
      EventKeepsUnknown(s, events[0], o);
      ApplyKeeps(s, events[0]);
      ApplyHeld(s, events[0]);
      EventsKeepUnknown(Apply(s, events[0]), events[1..], o);
    }
  }
}
