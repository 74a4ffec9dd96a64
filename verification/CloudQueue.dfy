/**
  The queue of orders: when a signal is launched in its turn, and which signals a poll keeps.
 */
module CloudQueue {
  import opened Wrappers
  import opened CloudProtocol
  import opened CloudInvariants
  import opened CloudTheorems

  // --- what the manager remembers of failed launches -----------------------------------

  /** Some launch of o was put back, with this moment to wait for. */
  ghost predicate AskedFor(launches: seq<Launch>, o: OrderId, until: real) {
    exists k :: 0 <= k < |launches| && launches[k].order == o && launches[k].retry.Some?
                && until == launches[k].ended + launches[k].retry.value
  }

  /** An order is held back only for a launch that was put back, and as long as it is, the attempt
      is remembered; an order with a run has no attempts left to remember. The clock is not negative. */
  ghost predicate Held(s: State) {
    && s.clock >= 0.0
    && (forall o :: o in s.blockedUntil ==> s.blockedUntil[o] <= s.clock || o in s.attempts)
    && (forall o :: o in s.blockedUntil ==> AskedFor(s.launches, o, s.blockedUntil[o]))
    && (forall a :: a in s.runs ==> s.runs[a].order !in s.attempts)
  }

  /** Every delay that a failed launch of o asked for is over. */
  ghost predicate Due(s: State, o: OrderId) {
    forall k :: 0 <= k < |s.launches| && s.launches[k].order == o && s.launches[k].retry.Some? ==>
      s.launches[k].ended + s.launches[k].retry.value <= s.clock
  }

  lemma AskedForMore(launches: seq<Launch>, l: Launch, o: OrderId, until: real)
    requires AskedFor(launches, o, until)
    ensures AskedFor(launches + [l], o, until)
  {
    var k :| 0 <= k < |launches| && launches[k].order == o && launches[k].retry.Some?
             && until == launches[k].ended + launches[k].retry.value;
    assert (launches + [l])[k] == launches[k];
  }

  /** A launch is logged with its times. */
  lemma LaunchLogged(s: State, o: OrderId, env: LaunchEnv)
    ensures var t := Launched(s, o, env);
            && t.clock == s.clock + env.took && |t.launches| == |s.launches| + 1
            && var l := t.launches[|s.launches|];
            t.launches == s.launches + [l] && l.order == o && l.started == s.clock && l.ended == t.clock
            && l.retry == if Requeues(s, o, env.outcome) then Some(DelayOf(s.cfg, env.outcome.retryAfter)) else None
  {
  }

  /** What a launch makes of the memory of its own order: put back it is remembered and held back,
      otherwise nothing new is. */
  lemma LaunchRemembers(s: State, o: OrderId, env: LaunchEnv)
    ensures var t := Launched(s, o, env);
            && (Requeues(s, o, env.outcome) ==>
                  && o in t.attempts && t.runs == s.runs
                  && o in t.blockedUntil && t.blockedUntil[o] == t.clock + DelayOf(s.cfg, env.outcome.retryAfter))
            && (!Requeues(s, o, env.outcome) ==>
                  && (o in t.blockedUntil ==> o in s.blockedUntil && t.blockedUntil[o] == s.blockedUntil[o])
                  && (o in t.attempts ==> o in s.attempts && t.runs == s.runs))
  {
    LaunchLogged(s, o, env);
  }

  lemma LaunchForgetsNoOther(s: State, o: OrderId, env: LaunchEnv, q: OrderId)
    requires q != o
    ensures var t := Launched(s, o, env);
            && (q in t.attempts <==> q in s.attempts)
            && (q in t.blockedUntil <==> q in s.blockedUntil)
            && (q in s.blockedUntil ==> t.blockedUntil[q] == s.blockedUntil[q])
  {
  }

  lemma LaunchKeepsHold(s: State, o: OrderId, env: LaunchEnv, q: OrderId)
    requires Held(s) && CallsLaunch(s, o) && q in Launched(s, o, env).blockedUntil
    ensures var t := Launched(s, o, env);
            && (t.blockedUntil[q] <= t.clock || q in t.attempts)
            && AskedFor(t.launches, q, t.blockedUntil[q])
  {
    var t := Launched(s, o, env);
    var l := t.launches[|s.launches|];
    LaunchLogged(s, o, env);
    LaunchRemembers(s, o, env);
    if q != o { LaunchForgetsNoOther(s, o, env, q); }
    if q == o && Requeues(s, o, env.outcome) {
      assert t.launches[|s.launches|] == l;
    } else {
      AskedForMore(s.launches, l, q, s.blockedUntil[q]);
    }
  }

  lemma LaunchHeld(s: State, o: OrderId, env: LaunchEnv)
    requires Held(s) && CallsLaunch(s, o)
    ensures Held(Launched(s, o, env))
  {
    var t := Launched(s, o, env);
    LaunchLogged(s, o, env);
    LaunchRemembers(s, o, env);
    LaunchWrites(s, o, env);
    forall q | q in t.blockedUntil
      ensures t.blockedUntil[q] <= t.clock || q in t.attempts
      ensures AskedFor(t.launches, q, t.blockedUntil[q])
    {
      LaunchKeepsHold(s, o, env, q);
    }
    forall a | a in t.runs ensures t.runs[a].order !in t.attempts {
      var q := t.runs[a].order;
      if q != o { LaunchForgetsNoOther(s, o, env, q); }
    }
  }

  lemma TurnHeld(s: State, signal: Signal, env: LaunchEnv)
    requires Held(s)
    ensures Held(HandleOrder(s, signal, env).0)
  {
    if signal.Usable? && CallsLaunch(Tick(s, env.waited), signal.order) {
      assert Held(Tick(s, env.waited));
      LaunchHeld(Tick(s, env.waited), signal.order, env);
    }
  }

  lemma {:induction false} TurnsHeld(s: State, queue: seq<Signal>, envs: seq<LaunchEnv>)
    requires Held(s) && |envs| == |queue|
    ensures Held(DrainOrders(s, queue, envs).0)
    decreases |queue|
  {
    if queue != [] {
      var n := |queue| - 1;
      TurnsHeld(s, queue[..n], envs[..n]);
      TurnHeld(DrainOrders(s, queue[..n], envs[..n]).0, queue[n], envs[n]);
    }
  }

  /** The manager's memory of orders, and its clock. */
  ghost predicate SameMemory(s: State, t: State) {
    && t.attempts == s.attempts && t.blockedUntil == s.blockedUntil && t.pending == s.pending
    && t.launches == s.launches && t.clock == s.clock
  }

  lemma VisitMemory(s: State, a: AgentId, already: seq<Entry>, env: RunEnv)
    requires a in s.runs
    ensures SameMemory(s, VisitRun(s, a, already, env).0)
  {
  }

  ghost predicate SameOrders(s: State, t: State) {
    t.runs.Keys == s.runs.Keys && forall a :: a in s.runs ==> t.runs[a].order == s.runs[a].order
  }

  lemma {:induction false} SweepMemory(s: State, live: seq<AgentId>, already: seq<Entry>, env: RunEnv)
    requires forall a :: a in live ==> a in s.runs
    ensures var t := Sweep(s, live, already, env).0; SameMemory(s, t) && SameOrders(s, t)
    decreases |live|
  {
    if live != [] {
      VisitMemory(s, live[0], already, env);
      VisitEffect(s, live[0], already, env);
      SweepMemory(VisitRun(s, live[0], already, env).0, live[1..], already, env);
    }
  }

  lemma PollRunsMemory(s: State, force: bool, waited: Duration, scan: seq<AgentId>, env: RunEnv)
    ensures var t := PollRuns(s, force, waited, scan, env).0; SameMemory(Tick(s, waited), t) && SameOrders(s, t)
  {
    PollIsSweep(s, force, waited, scan, env);
    SweepMemory(Begun(s, waited), LiveIn(s.runs, scan), s.finished, env);
  }

  lemma RejectMemory(s: State, o: OrderId, cancelled: bool)
    ensures var t := Reject(s, o, cancelled).0; SameMemory(s, t) && SameOrders(s, t)
  {
  }

  lemma HeldFollows(s: State, t: State)
    requires Held(s) && SameMemory(s, t) && SameOrders(s, t)
    ensures Held(t)
  {
  }

  lemma ApplyHeld(s: State, e: Event)
    requires Held(s)
    ensures Held(Apply(s, e))
  {
    match e
    case OrderPoll(signals, envs) =>
      var queue := s.pending + signals;
      TurnsHeld(s.(pending := queue), queue, EnvsOf(queue, envs));
    case RunSweep(force, waited, scan, env) =>
      PollRunsMemory(s, force, waited, scan, env);
      HeldFollows(Tick(s, waited), Apply(s, e));
    case OperatorReject(o, cancelled) =>
      RejectMemory(s, o, cancelled);
      HeldFollows(s, Apply(s, e));
    case ButtonReject(o, agent) =>
    case Restart =>
    case Pass(d) =>
  }

  lemma {:induction false} AfterHeld(s: State, events: seq<Event>)
    requires Held(s)
    ensures Held(After(s, events))
    decreases |events|
  {
    if events != [] {
      ApplyHeld(s, events[0]);
      AfterHeld(Apply(s, events[0]), events[1..]);
    }
  }

  /** A state that some history leads to. */
  ghost predicate Reachable(s: State) {
    Inv(s) && Held(s)
  }

  lemma HistoriesReach(cfg: Config, clock: real, events: seq<Event>)
    requires AllWellFormed(events) && clock >= 0.0
    ensures Reachable(Reached(cfg, clock, events))
  {
    ReachedInv(cfg, clock, events);
    AfterHeld(Init(cfg, clock), events);
  }

  // --- one turn of the queue --------------------------------------------------------------

  /** The manager holds an order back exactly as long as a delay asked for is not over. */
  lemma HeldBackIff(s: State, o: OrderId)
    requires Reachable(s)
    ensures Due(s, o) <==> (if o in s.blockedUntil then s.blockedUntil[o] else 0.0) <= s.clock
  {
    if o in s.blockedUntil && Due(s, o) {
      var k :| 0 <= k < |s.launches| && s.launches[k].order == o && s.launches[k].retry.Some?
               && s.blockedUntil[o] == s.launches[k].ended + s.launches[k].retry.value;
      assert s.blockedUntil[o] <= s.clock;
    }
    forall k | 0 <= k < |s.launches| && s.launches[k].order == o && s.launches[k].retry.Some?
      ensures NotBefore(s.launches[k]) <= s.clock || (o in s.blockedUntil && NotBefore(s.launches[k]) <= s.blockedUntil[o])
    {
      assert Waits(s.launches[k], s.blockedUntil, s.clock);
    }
  }

  /** The manager will call launch for the signal's order: it has no run, no entry that can be seen
      and no delay left to wait for. */
  ghost predicate WillLaunch(s: State, signal: Signal, env: LaunchEnv) {
    && signal.Usable? && !HasRun(s.runs, signal.order) && !RecentFor(s.finished, signal.order)
    && Due(Tick(s, env.waited), signal.order)
  }

  lemma TickReachable(s: State, d: Duration)
    requires Reachable(s)
    ensures Reachable(Tick(s, d))
  {
    TickKeeps(s, d);
  }

  lemma TurnReachable(s: State, signal: Signal, env: LaunchEnv)
    requires Reachable(s)
    ensures Reachable(HandleOrder(s, signal, env).0)
  {
    HandleOrderKeeps(s, signal, env);
    TurnHeld(s, signal, env);
  }

  lemma WillLaunchMeaning(s: State, signal: Signal, env: LaunchEnv)
    requires Reachable(s)
    ensures WillLaunch(s, signal, env) <==> signal.Usable? && CallsLaunch(Tick(s, env.waited), signal.order)
  {
    if signal.Usable? {
      TickReachable(s, env.waited);
      HeldBackIff(Tick(s, env.waited), signal.order);
      SettledMeaning(s.finished, signal.order);
    }
  }

  /** A signal is launched in its turn if and only if its order has no run, no entry that can be seen
      and no delay left to wait for; otherwise nothing but the clock changes. */
  lemma TurnLaunchesIff(s: State, signal: Signal, env: LaunchEnv)
    requires Reachable(s)
    ensures var t := HandleOrder(s, signal, env).0;
            && (WillLaunch(s, signal, env) ==>
                  && |t.launches| == |s.launches| + 1
                  && var l := t.launches[|s.launches|];
                  t.launches == s.launches + [l] && l.order == signal.order
                  && l.started == s.clock + env.waited && l.ended == l.started + env.took)
            && (!WillLaunch(s, signal, env) ==> t == s || t == Tick(s, env.waited))
  {
    WillLaunchMeaning(s, signal, env);
    if WillLaunch(s, signal, env) { LaunchLogged(Tick(s, env.waited), signal.order, env); }
  }

  /** The failed launch was worth repeating, and it was not the last one allowed. */
  predicate Repeatable(env: LaunchEnv, before: nat) {
    env.outcome.StartupFailed? && env.outcome.retryable && before + 1 < 3
  }

  /** A launch is put back, with the delay asked for or the default one, if and only if it failed to
      start in a way worth repeating and is the first or second of its order. */
  lemma RetriedIff(s: State, signal: Signal, env: LaunchEnv)
    requires Reachable(s) && WillLaunch(s, signal, env) && !Scrolled(s.finished, signal.order)
    ensures var t := HandleOrder(s, signal, env).0;
            && |t.launches| == |s.launches| + 1
            && t.launches[|s.launches|].retry ==
                 if !Repeatable(env, LaunchCount(s.launches, signal.order)) then None
                 else if env.outcome.retryAfter.Some? && env.outcome.retryAfter.value != 0.0 then env.outcome.retryAfter
                 else Some(s.cfg.retryDelay)
  {
    WillLaunchMeaning(s, signal, env);
    LaunchLogged(Tick(s, env.waited), signal.order, env);
    assert !HasEntry(s.finished, signal.order) by {
      assert !RecentFor(s.finished, signal.order) && !Scrolled(s.finished, signal.order);
    }
  }

  // --- which signals a poll keeps -----------------------------------------------------------

  /** A rejection landed in the launch, or it failed for another reason than not starting: the order
      is done with, but the manager does not forget its attempts. */
  predicate EndsUnregistered(env: LaunchEnv) {
    env.outcome.Failed? || (env.outcome.Minted? && env.rejectedMeanwhile)
  }

  /** In its turn the signal stays queued: it is held back, or its launch is put back. One that is
      done with stays as well while earlier attempts of its order are remembered. */
  ghost predicate Kept(s: State, signal: Signal, env: LaunchEnv) {
    && signal.Usable? && !HasRun(s.runs, signal.order)
    && if RecentFor(s.finished, signal.order) then signal.order in s.attempts
       else
         || !Due(Tick(s, env.waited), signal.order)
         || Repeatable(env, Tries(s.attempts, signal.order))
         || (EndsUnregistered(env) && signal.order in s.attempts)
  }

  lemma LaunchRemembersIff(s: State, o: OrderId, env: LaunchEnv)
    requires Held(s) && CallsLaunch(s, o)
    ensures o in Launched(s, o, env).attempts <==>
              Repeatable(env, Tries(s.attempts, o)) || (EndsUnregistered(env) && o in s.attempts)
  {
    var s1 := CallLaunch(s, o, env);
    SettledMeaning(s.finished, o);
    SettledMeaning(s1.finished, o);
    if env.rejectedMeanwhile {
      assert s1.finished[|s.finished|].order == o;
    }
  }

  /** A signal is kept exactly when its order has attempts to remember after its turn. */
  lemma KeptMeaning(s: State, signal: Signal, env: LaunchEnv)
    requires Reachable(s) && signal.Usable?
    ensures Kept(s, signal, env) <==> signal.order in HandleOrder(s, signal, env).0.attempts
  {
    var o := signal.order;
    WillLaunchMeaning(s, signal, env);
    SettledMeaning(s.finished, o);
    if HasRun(s.runs, o) {
      var a :| a in s.runs && s.runs[a].order == o;
    } else if !RecentFor(s.finished, o) {
      TickReachable(s, env.waited);
      HeldBackIff(Tick(s, env.waited), o);
      if WillLaunch(s, signal, env) { LaunchRemembersIff(Tick(s, env.waited), o, env); }
    }
  }

  /** What a turn leaves in the queue. */
  lemma TurnKeeps(s: State, signal: Signal, env: LaunchEnv)
    requires Reachable(s)
    ensures TakeOrder(s, signal, env).2 == if Kept(s, signal, env) then [signal] else []
  {
    var (t, launched) := HandleOrder(s, signal, env);
    TurnReachable(s, signal, env);
    if signal.Usable? {
      KeptMeaning(s, signal, env);
      if launched { assert t.runs[s.nextAgent].order == signal.order; }
    }
  }

  lemma BeforeReachable(s: State, queue: seq<Signal>, envs: seq<LaunchEnv>, k: nat)
    requires Reachable(s) && |envs| == |queue| && k <= |queue|
    ensures Reachable(Before(s, queue, envs, k))
  {
    DrainKeeps(s, queue[..k], envs[..k]);
    TurnsHeld(s, queue[..k], envs[..k]);
  }

  /** What is left in the queue before the k-th turn. */
  ghost function StillBefore(s: State, queue: seq<Signal>, envs: seq<LaunchEnv>, k: nat): seq<Signal>
    requires |envs| == |queue| && k <= |queue|
  {
    DrainOrders(s, queue[..k], envs[..k]).2
  }

  ghost predicate KeptAt(s: State, queue: seq<Signal>, envs: seq<LaunchEnv>, k: nat)
    requires |envs| == |queue| && k < |queue|
  {
    Kept(Before(s, queue, envs, k), queue[k], envs[k])
  }

  lemma StillNext(s: State, queue: seq<Signal>, envs: seq<LaunchEnv>, k: nat)
    requires Reachable(s) && |envs| == |queue|
    ensures StillBefore(s, queue, envs, 0) == []
    ensures k < |queue| ==>
              StillBefore(s, queue, envs, k + 1) ==
                StillBefore(s, queue, envs, k) + if KeptAt(s, queue, envs, k) then [queue[k]] else []
  {
    if k < |queue| {
      BeforeReachable(s, queue, envs, k);
      TurnKeeps(Before(s, queue, envs, k), queue[k], envs[k]);
      assert queue[..k + 1][..k] == queue[..k] && envs[..k + 1][..k] == envs[..k];
    }
  }

  /** The signals at the first k places that are to be kept, in their order. */
  function Filtered(queue: seq<Signal>, keep: seq<bool>, k: nat): seq<Signal>
    requires k <= |queue| == |keep|
  {
    if k == 0 then [] else Filtered(queue, keep, k - 1) + if keep[k - 1] then [queue[k - 1]] else []
  }

  lemma {:induction false} StillIsFiltered(s: State, queue: seq<Signal>, envs: seq<LaunchEnv>, keep: seq<bool>, k: nat)
    requires Reachable(s) && k <= |queue| == |envs| == |keep|
    requires forall j :: 0 <= j < k ==> keep[j] == KeptAt(s, queue, envs, j)
    ensures StillBefore(s, queue, envs, k) == Filtered(queue, keep, k)
  {
    StillNext(s, queue, envs, if k == 0 then |queue| else k - 1);
    if k > 0 { StillIsFiltered(s, queue, envs, keep, k - 1); }
  }

  /** The queue of a poll, and the state in which its turns begin. */
  ghost function Queue(s: State, signals: seq<Signal>): seq<Signal> {
    s.pending + signals
  }

  /** The state before the k-th turn of a poll. */
  ghost function AtTurn(s: State, signals: seq<Signal>, envs: nat -> LaunchEnv, k: nat): State
    requires k <= |Queue(s, signals)|
  {
    var queue := Queue(s, signals);
    Before(s.(pending := queue), queue, EnvsOf(queue, envs), k)
  }

  lemma PollEnds(s: State, signals: seq<Signal>, envs: nat -> LaunchEnv)
    ensures var queue := Queue(s, signals);
            var t := PollOrders(s, signals, envs).0;
            t == AtTurn(s, signals, envs, |queue|).(pending := DrainOrders(s.(pending := queue), queue, EnvsOf(queue, envs)).2)
  {
    var queue := Queue(s, signals);
    BeforeEnds(s.(pending := queue), queue, EnvsOf(queue, envs));
  }

  /** After a poll exactly those signals are pending, in their order, that were held back in their
      turn or whose launch was put back, and those that are done with while attempts of their order
      are remembered. */
  lemma PollKeepsExactly(s: State, signals: seq<Signal>, envs: nat -> LaunchEnv, keep: seq<bool>)
    requires Reachable(s) && |keep| == |Queue(s, signals)|
    requires forall k :: 0 <= k < |keep| ==> keep[k] == Kept(AtTurn(s, signals, envs, k), Queue(s, signals)[k], envs(k))
    ensures PollOrders(s, signals, envs).0.pending == Filtered(Queue(s, signals), keep, |keep|)
  {
    var queue := Queue(s, signals);
    var es := EnvsOf(queue, envs);
    var s0 := s.(pending := queue);
    StillIsFiltered(s0, queue, es, keep, |queue|);
    PollEnds(s, signals, envs);
    assert queue[..|queue|] == queue && es[..|queue|] == es;
  }

  lemma {:induction false} NewRetriesStay(s: State, queue: seq<Signal>, envs: seq<LaunchEnv>, k: nat)
    requires Reachable(s) && |envs| == |queue| && k <= |queue|
    ensures var u := Before(s, queue, envs, k);
            && s.launches <= u.launches
            && forall i :: |s.launches| <= i < |u.launches| && u.launches[i].retry.Some? ==>
                 Usable(u.launches[i].order) in StillBefore(s, queue, envs, k)
  {
    if k == 0 {
      BeforeEnds(s, queue, envs);
    } else {
      var n := k - 1;
      var u := Before(s, queue, envs, n);
      NewRetriesStay(s, queue, envs, n);
      BeforeReachable(s, queue, envs, n);
      BeforeNext(s, queue, envs, n);
      StillNext(s, queue, envs, n);
      TurnLaunchesIff(u, queue[n], envs[n]);
      if WillLaunch(u, queue[n], envs[n]) { RetryIsKept(u, queue[n], envs[n]); }
    }
  }

  lemma RetryIsKept(s: State, signal: Signal, env: LaunchEnv)
    requires Reachable(s) && WillLaunch(s, signal, env)
    ensures var t := HandleOrder(s, signal, env).0;
            |t.launches| == |s.launches| + 1 && (t.launches[|s.launches|].retry.Some? ==> Kept(s, signal, env))
  {
    WillLaunchMeaning(s, signal, env);
    LaunchLogged(Tick(s, env.waited), signal.order, env);
  }

  /** A launch of a poll that was put back has its signal pending when the poll is over. */
  lemma RetriesStayQueued(s: State, signals: seq<Signal>, envs: nat -> LaunchEnv, i: nat)
    requires Reachable(s)
    requires var t := PollOrders(s, signals, envs).0;
             |s.launches| <= i < |t.launches| && t.launches[i].retry.Some?
    ensures var t := PollOrders(s, signals, envs).0; Usable(t.launches[i].order) in t.pending
  {
    var queue := Queue(s, signals);
    var s0, es := s.(pending := queue), EnvsOf(queue, envs);
    NewRetriesStay(s0, queue, es, |queue|);
    PollEnds(s, signals, envs);
    assert queue[..|queue|] == queue && es[..|queue|] == es;
  }
}
