/**
  The promises of the CloudFactory protocol, over every history of order signals, polls,
  rejections and restarts, whatever the agent runtime answers.
 */
module CloudTheorems {
  import opened Wrappers
  import opened CloudProtocol
  import opened CloudInvariants

  ghost predicate AllWellFormed(events: seq<Event>) {
    forall e :: e in events ==> WellFormed(e)
  }

  /** The state a manager reaches from a clean start. */
  ghost function Reached(cfg: Config, clock: real, events: seq<Event>): State {
    After(Init(cfg, clock), events)
  }

  lemma ReachedInv(cfg: Config, clock: real, events: seq<Event>)
    requires AllWellFormed(events)
    ensures Inv(Reached(cfg, clock, events))
  {
    InitInv(cfg, clock);
    AfterKeeps(Init(cfg, clock), events);
  }

  // --- one outcome per order -------------------------------------------------

  /** In every history, a manager-written entry repeats one of the 200 entries
      before it if and only if it reports a launch failure that an operator's rejection raced. */
  lemma ManagerRepeatsOnlyRaces(cfg: Config, clock: real, events: seq<Event>)
    requires AllWellFormed(events)
    ensures var fin := Reached(cfg, clock, events).finished;
            forall j :: 0 <= j < |fin| && !fin[j].writer.FrontEnd? ==>
              (fin[j].writer == LaunchFailure(true) <==>
                exists i :: 0 <= i < j && j <= i + 200 && fin[i].order == fin[j].order)
  {
    ReachedInv(cfg, clock, events);
    var fin := Reached(cfg, clock, events).finished;
    forall j | 0 <= j < |fin| && !fin[j].writer.FrontEnd?
      ensures fin[j].writer == LaunchFailure(true) <==>
              exists i :: 0 <= i < j && j <= i + 200 && fin[i].order == fin[j].order
    {
      assert Repeats(fin, j) <==> fin[j].writer == LaunchFailure(true);
    }
  }

  /** Handling the signal, the manager gives a launch up that a rejection landed in. */
  predicate Races(s: State, signal: Signal, env: LaunchEnv) {
    && signal.Usable? && env.rejectedMeanwhile
    && CallsLaunch(Tick(s, env.waited), signal.order) && GivesUp(s, signal.order, env)
  }

  function EnvsOf(queue: seq<Signal>, envs: nat -> LaunchEnv): seq<LaunchEnv> {
    seq(|queue|, i requires 0 <= i < |queue| => envs(i))
  }

  /** The state before the k-th signal of a pass over the queue. */
  function Before(s: State, queue: seq<Signal>, envs: seq<LaunchEnv>, k: nat): State
    requires |envs| == |queue| && k <= |queue|
  {
    DrainOrders(s, queue[..k], envs[..k]).0
  }

  /** In a pass over the queue no rejection lands in a launch that is given up. */
  ghost predicate NoRace(s: State, queue: seq<Signal>, envs: seq<LaunchEnv>)
    requires |envs| == |queue|
  {
    forall k :: 0 <= k < |queue| ==> !Races(Before(s, queue, envs, k), queue[k], envs[k])
  }

  lemma BeforeNext(s: State, queue: seq<Signal>, envs: seq<LaunchEnv>, k: nat)
    requires |envs| == |queue| && k < |queue|
    ensures Before(s, queue, envs, k + 1) == HandleOrder(Before(s, queue, envs, k), queue[k], envs[k]).0
  {
    assert queue[..k + 1][..k] == queue[..k] && envs[..k + 1][..k] == envs[..k];
  }

  lemma BeforeEnds(s: State, queue: seq<Signal>, envs: seq<LaunchEnv>)
    requires |envs| == |queue|
    ensures Before(s, queue, envs, 0) == s
    ensures Before(s, queue, envs, |queue|) == DrainOrders(s, queue, envs).0
  {
    assert queue[..|queue|] == queue && envs[..|queue|] == envs;
  }

  /** The front end rejects only orders without a visible entry, and no rejection lands in a
      launch that is given up. */
  ghost predicate Polite(s: State, e: Event) {
    match e
    case ButtonReject(o, agent) => !RecentFor(s.finished, o)
    case OrderPoll(signals, envs) =>
      var queue := s.pending + signals;
      NoRace(s.(pending := queue), queue, EnvsOf(queue, envs))
    case _ => true
  }

  ghost predicate AlwaysPolite(s: State, events: seq<Event>)
    decreases |events|
  {
    events != [] ==> Polite(s, events[0]) && AlwaysPolite(Apply(s, events[0]), events[1..])
  }

  /** No entry of the stream repeats a recent one through a race or through the front end. */
  ghost predicate Clean(fin: seq<Entry>) {
    forall j :: 0 <= j < |fin| ==>
      fin[j].writer != LaunchFailure(true) && (fin[j].writer.FrontEnd? ==> !Repeats(fin, j))
  }

  lemma CleanAppend(fin: seq<Entry>, e: Entry)
    requires Clean(fin) && e.writer != LaunchFailure(true)
    requires e.writer.FrontEnd? ==> !RecentFor(fin, e.order)
    ensures Clean(fin + [e])
  {
    var t := fin + [e];
    assert forall i :: 0 <= i < |fin| ==> t[i] == fin[i];
    forall j | 0 <= j < |t| && t[j].writer.FrontEnd? ensures !Repeats(t, j) {
      if j < |fin| { assert !Repeats(fin, j); }
    }
  }

  lemma HandleOrderClean(s: State, signal: Signal, env: LaunchEnv)
    requires Clean(s.finished) && !Races(s, signal, env)
    ensures Clean(HandleOrder(s, signal, env).0.finished)
  {
    if signal.Usable? && CallsLaunch(Tick(s, env.waited), signal.order) {
      var o := signal.order;
      var s1 := Tick(s, env.waited);
      LaunchWrites(s1, o, env);
      UnsettledMeansNoEntry(s.finished, o);
      CleanAppend(s.finished, Entry(None, o, Cancelled, FrontEnd));
      CleanAppend(s.finished, Entry(None, o, StartupError, LaunchFailure(false)));
    }
  }

  lemma {:induction false} DrainClean(s: State, queue: seq<Signal>, envs: seq<LaunchEnv>, k: nat)
    requires Clean(s.finished) && |envs| == |queue| && NoRace(s, queue, envs) && k <= |queue|
    ensures Clean(Before(s, queue, envs, k).finished)
  {
    if k == 0 {
      BeforeEnds(s, queue, envs);
    } else {
      DrainClean(s, queue, envs, k - 1);
      BeforeNext(s, queue, envs, k - 1);
      HandleOrderClean(Before(s, queue, envs, k - 1), queue[k - 1], envs[k - 1]);
    }
  }

  lemma {:induction false} SweepClean(s: State, live: seq<AgentId>, already: seq<Entry>, env: RunEnv)
    requires Clean(s.finished) && forall a :: a in live ==> a in s.runs
    ensures Clean(Sweep(s, live, already, env).0.finished)
    decreases |live|
  {
    if live != [] {
      var a := live[0];
      forall status { CleanAppend(s.finished, Entry(Some(a), s.runs[a].order, status, RunPoll)); }
      SweepClean(VisitRun(s, a, already, env).0, live[1..], already, env);
    }
  }

  lemma ApplyClean(s: State, e: Event)
    requires Clean(s.finished) && Polite(s, e)
    ensures Clean(Apply(s, e).finished)
  {
    match e
    case OrderPoll(signals, envs) =>
      var queue := s.pending + signals;
      BeforeEnds(s.(pending := queue), queue, EnvsOf(queue, envs));
      DrainClean(s.(pending := queue), queue, EnvsOf(queue, envs), |queue|);
    case RunSweep(force, waited, scan, env) =>
      PollIsSweep(s, force, waited, scan, env);
      SweepClean(Begun(s, waited), LiveIn(s.runs, scan), s.finished, env);
    case OperatorReject(o, cancelled) =>
      forall agent { CleanAppend(s.finished, Entry(agent, o, Cancelled, Operator)); }
    case ButtonReject(o, agent) =>
      CleanAppend(s.finished, Entry(agent, o, Cancelled, FrontEnd));
    case Restart =>
    case Pass(d) =>
  }

  /** A launch repeats a recent entry exactly when a rejection lands during it and it fails for good. */
  lemma LaunchRepeatsIff(s: State, o: OrderId, env: LaunchEnv)
    requires CallsLaunch(s, o)
    ensures var fin := Launched(s, o, env).finished;
            (exists j :: |s.finished| <= j < |fin| && Repeats(fin, j)) <==>
              env.rejectedMeanwhile && GivesUp(s, o, env)
  {
    var fin := Launched(s, o, env).finished;
    var n := |s.finished|;
    LaunchWrites(s, o, env);
    UnsettledMeansNoEntry(s.finished, o);
    assert !Repeats(fin, n) by {
      assert forall i :: 0 <= i < n && n <= i + FINISHED_WINDOW ==> Recent(s.finished, i) && fin[i] == s.finished[i];
    }
    if env.rejectedMeanwhile && GivesUp(s, o, env) {
      assert fin[n].order == o && fin[n + 1].order == o;
      assert Repeats(fin, n + 1);
    }
  }

  /** A poll that finds a single signal comes to handling that signal. */
  lemma PollOne(s: State, signal: Signal, env: LaunchEnv)
    requires s.pending == []
    ensures PollOrders(s, [signal], k => env).0.finished == HandleOrder(s.(pending := [signal]), signal, env).0.finished
  {
    var queue := s.pending + [signal];
    assert queue == [signal];
    var envs := seq(|queue|, i requires 0 <= i < |queue| => (k => env)(i));
    assert envs == [env] && queue[..0] == [] && envs[..0] == [];
    var s0 := s.(pending := queue);
    assert DrainOrders(s0, queue[..0], envs[..0]).0 == s0;
    assert DrainOrders(s0, queue, envs).0 == TakeOrder(s0, queue[0], envs[0]).0;
  }

  /** A concrete history that reports one order twice: rejected while its only launch was failing. */
  lemma RacedLaunchReportsTwice(cfg: Config)
    ensures var env := LaunchEnv(0.0, 0.0, Failed, true);
            Reached(cfg, 0.0, [OrderPoll([Usable("a")], k => env)]).finished ==
              [Entry(None, "a", Cancelled, FrontEnd), Entry(None, "a", StartupError, LaunchFailure(true))]
  {
    var env := LaunchEnv(0.0, 0.0, Failed, true);
    var e := OrderPoll([Usable("a")], k => env);
    var s := Init(cfg, 0.0);
    var s1 := Tick(s.(pending := [Usable("a")]), 0.0);
    PollOne(s, Usable("a"), env);
    LaunchWrites(s1, "a", env);
    assert !HasRun(s.runs, "a");
    assert [e][1..] == [] && After(Apply(s, e), []) == Apply(s, e);
  }

  // --- agents and runs -------------------------------------------------------

  /** Every agent the runtime minted is registered or had a cancel requested; a registered
      one leaves the live set only after a cancel request or a provider-reported end. */
  lemma NoAgentIsLost(cfg: Config, clock: real, events: seq<Event>, a: AgentId)
    requires AllWellFormed(events)
    requires a < Reached(cfg, clock, events).nextAgent
    ensures var s := Reached(cfg, clock, events);
            && (a in s.runs || a in s.cancelRequested)
            && ((a in s.runs && s.runs[a].Live()) || a in s.cancelRequested || a in s.providerEnded)
  {
    ReachedInv(cfg, clock, events);
  }

  /** Registry and stream agree: a terminal run has an entry for its order with its status,
      and the last manager-written entry naming a run carries the status of that run. */
  lemma RegistryAndStreamAgree(cfg: Config, clock: real, events: seq<Event>, a: AgentId)
    requires AllWellFormed(events)
    ensures var s := Reached(cfg, clock, events);
            && (a in s.runs && s.runs[a].status.Terminal() ==>
                  exists i :: 0 <= i < |s.finished| && s.finished[i].order == s.runs[a].order
                              && s.finished[i].status == s.runs[a].status)
            && (forall i :: LastNaming(s.finished, i, a) ==>
                  a in s.runs && s.runs[a].order == s.finished[i].order && s.runs[a].status == s.finished[i].status)
  {
    ReachedInv(cfg, clock, events);
    var s := Reached(cfg, clock, events);
    if a in s.runs && s.runs[a].status.Terminal() { assert Reported(s.finished, s.runs[a].order, s.runs[a].status); }
  }

  /** A manager-written entry the manager can still see names a run in exactly that status. */
  lemma VisibleEntriesAgree(cfg: Config, clock: real, events: seq<Event>, i: nat, a: AgentId)
    requires AllWellFormed(events)
    requires var fin := Reached(cfg, clock, events).finished;
             i < |fin| && Recent(fin, i) && Names(fin[i], a)
    ensures var s := Reached(cfg, clock, events);
            a in s.runs && s.runs[a].order == s.finished[i].order && s.runs[a].status == s.finished[i].status
  {
    ReachedInv(cfg, clock, events);
    var s := Reached(cfg, clock, events);
    assert EntriesAgree(s.runs, s.finished);
    forall j | i < j < |s.finished| ensures !Names(s.finished[j], a) {
      assert Names(s.finished[i], a) && s.finished[i].order == s.runs[a].order;
      assert Names(s.finished[j], a) ==> s.finished[j].order == s.runs[a].order;
      assert Names(s.finished[j], a) ==> Repeats(s.finished, j);
    }
    assert LastNaming(s.finished, i, a);
  }

  /** Each order has at most one run, and a success is never written anywhere. */
  lemma OneRunPerOrderAlways(cfg: Config, clock: real, events: seq<Event>)
    requires AllWellFormed(events)
    ensures var s := Reached(cfg, clock, events);
            && (forall a, b :: a in s.runs && b in s.runs && s.runs[a].order == s.runs[b].order ==> a == b)
            && (forall a :: a in s.runs ==> s.runs[a].status != Finished)
            && (forall i :: 0 <= i < |s.finished| ==> s.finished[i].status != Finished)
  {
    ReachedInv(cfg, clock, events);
  }

  /** Registered agents were minted. */
  ghost predicate Numbered(s: State) {
    forall a :: a in s.runs ==> a < s.nextAgent
  }

  /** `t` keeps the runs of `s` and adds entries only for orders without a run. */
  ghost predicate LeavesRuns(s: State, t: State) {
    && (forall a :: a in s.runs ==> a in t.runs && t.runs[a] == s.runs[a])
    && s.finished <= t.finished
    && (forall i :: |s.finished| <= i < |t.finished| ==> !HasRun(s.runs, t.finished[i].order))
  }

  lemma LeavesRunsTransitive(s: State, s1: State, t: State)
    requires LeavesRuns(s, s1) && LeavesRuns(s1, t)
    ensures LeavesRuns(s, t)
  {
    forall i | |s.finished| <= i < |t.finished| ensures !HasRun(s.runs, t.finished[i].order) {
      if i < |s1.finished| {
        assert t.finished[i] == s1.finished[i];
      } else {
        forall a | a in s.runs ensures s.runs[a].order != t.finished[i].order {
          assert a in s1.runs && s1.runs[a] == s.runs[a];
        }
      }
    }
  }

  lemma LaunchLeavesRuns(s: State, o: OrderId, env: LaunchEnv)
    requires Numbered(s) && !HasRun(s.runs, o)
    ensures var t := Launched(s, o, env);
            && Numbered(t) && LeavesRuns(s, t)
            && (forall a :: a in t.runs && a !in s.runs ==> t.runs[a].order == o && Settled(t.finished, o).None?)
  {
    LaunchWrites(s, o, env);
  }

  lemma HandleOrderLeavesRuns(s: State, signal: Signal, env: LaunchEnv)
    requires Numbered(s)
    ensures var t := HandleOrder(s, signal, env).0;
            && Numbered(t) && LeavesRuns(s, t)
            && (forall a :: a in t.runs && a !in s.runs ==>
                  Settled(s.finished, t.runs[a].order).None? && Settled(t.finished, t.runs[a].order).None?)
  {
    if signal.Usable? && !HasRun(s.runs, signal.order) {
      LaunchLeavesRuns(Tick(s, env.waited), signal.order, env);
    }
  }

  /** Working through orders leaves every registered run as it is and writes only for orders without one. */
  lemma {:induction false} DrainLeavesRuns(s: State, queue: seq<Signal>, envs: seq<LaunchEnv>)
    requires Numbered(s) && |envs| == |queue|
    ensures var t := DrainOrders(s, queue, envs).0;
            Numbered(t) && LeavesRuns(s, t)
    decreases |queue|
  {
    if queue != [] {
      var n := |queue| - 1;
      var s1 := DrainOrders(s, queue[..n], envs[..n]).0;
      DrainLeavesRuns(s, queue[..n], envs[..n]);
      HandleOrderLeavesRuns(s1, queue[n], envs[n]);
      LeavesRunsTransitive(s, s1, DrainOrders(s, queue, envs).0);
    }
  }

  lemma HandleOrderCounts(s: State, signal: Signal, env: LaunchEnv)
    requires Numbered(s)
    ensures var (t, launched) := HandleOrder(s, signal, env);
            |t.runs| == |s.runs| + if launched then 1 else 0
  {
    assert s.nextAgent !in s.runs;
  }

  /** A pass over the queue reports exactly how many runs it registered. */
  lemma {:induction false} LaunchCountIsNewRuns(s: State, queue: seq<Signal>, envs: seq<LaunchEnv>)
    requires Numbered(s) && |envs| == |queue|
    ensures var (t, launched, _) := DrainOrders(s, queue, envs);
            |t.runs| == |s.runs| + launched
    decreases |queue|
  {
    if queue != [] {
      var n := |queue| - 1;
      LaunchCountIsNewRuns(s, queue[..n], envs[..n]);
      DrainLeavesRuns(s, queue[..n], envs[..n]);
      HandleOrderCounts(DrainOrders(s, queue[..n], envs[..n]).0, queue[n], envs[n]);
    }
  }

  /** When a pass over the queue is done, no run it created has a visible entry for its order:
      a rejection that lands while a launch is in flight leaves no run behind. */
  lemma {:induction false} NoRunForSettledOrder(s: State, queue: seq<Signal>, envs: seq<LaunchEnv>, a: AgentId)
    requires Numbered(s) && |envs| == |queue|
    requires var t := DrainOrders(s, queue, envs).0; a in t.runs && a !in s.runs
    ensures var t := DrainOrders(s, queue, envs).0;
            !RecentFor(t.finished, t.runs[a].order)
    decreases |queue|
  {
    var n := |queue| - 1;
    var s1 := DrainOrders(s, queue[..n], envs[..n]).0;
    var t := DrainOrders(s, queue, envs).0;
    DrainLeavesRuns(s, queue[..n], envs[..n]);
    HandleOrderLeavesRuns(s1, queue[n], envs[n]);
    var o := t.runs[a].order;
    if a in s1.runs {
      NoRunForSettledOrder(s, queue[..n], envs[..n], a);
      assert HasRun(s1.runs, o);
    } else {
      SettledMeaning(t.finished, o);
    }
  }

  // --- hand-off ----------------------------------------------------------------

  /** A sweep changes no run it does not visit, and writes only for the orders it visits. */
  lemma {:induction false} SweepLeavesOthers(s: State, live: seq<AgentId>, already: seq<Entry>, env: RunEnv, a: AgentId)
    requires forall b :: b in live ==> b in s.runs
    requires a in s.runs && a !in live && OneRunPerOrder(s.runs)
    ensures var t := Sweep(s, live, already, env).0;
            && t.runs[a] == s.runs[a] && s.finished <= t.finished
            && forall i :: |s.finished| <= i < |t.finished| ==> t.finished[i].order != s.runs[a].order
    decreases |live|
  {
    if live != [] {
      var s1 := VisitRun(s, live[0], already, env).0;
      VisitEffect(s, live[0], already, env);
      SweepLeavesOthers(s1, live[1..], already, env, a);
      var t := Sweep(s, live, already, env).0;
      forall i | |s.finished| <= i < |t.finished| ensures t.finished[i].order != s.runs[a].order {
        if i < |s1.finished| { assert t.finished[i] == s1.finished[i]; }
      }
    }
  }

  /** Nobody refuses order o through the manager; anything else may happen. */
  ghost predicate NotRefused(events: seq<Event>, o: OrderId) {
    forall e :: e in events && e.OperatorReject? ==> e.order != o
  }

  /** The run is as it was, and only the front end has written for its order. */
  ghost predicate KeepsHandedOff(s: State, t: State, a: AgentId)
    requires a in s.runs
  {
    && a in t.runs && t.runs[a] == s.runs[a] && s.finished <= t.finished
    && forall i :: |s.finished| <= i < |t.finished| && t.finished[i].order == s.runs[a].order ==> t.finished[i].writer.FrontEnd?
  }

  lemma OrderPollKeepsRun(s: State, signals: seq<Signal>, envs: nat -> LaunchEnv, a: AgentId)
    requires Numbered(s) && a in s.runs
    ensures KeepsHandedOff(s, PollOrders(s, signals, envs).0, a)
  {
    var queue := s.pending + signals;
    var t := PollOrders(s, signals, envs).0;
    DrainLeavesRuns(s.(pending := queue), queue, EnvsOf(queue, envs));
    forall i | |s.finished| <= i < |t.finished| ensures t.finished[i].order != s.runs[a].order {
      assert !HasRun(s.runs, t.finished[i].order);
    }
  }

  lemma RunSweepKeepsHandedOff(s: State, force: bool, waited: Duration, scan: seq<AgentId>, env: RunEnv, a: AgentId)
    requires OneRunPerOrder(s.runs) && a in s.runs && s.runs[a].prUrl != ""
    ensures KeepsHandedOff(s, PollRuns(s, force, waited, scan, env).0, a)
  {
    PollIsSweep(s, force, waited, scan, env);
    SweepLeavesOthers(Begun(s, waited), LiveIn(s.runs, scan), s.finished, env, a);
  }

  lemma EventKeepsHandedOff(s: State, e: Event, a: AgentId)
    requires Numbered(s) && OneRunPerOrder(s.runs)
    requires a in s.runs && s.runs[a].prUrl != "" && !(e.OperatorReject? && e.order == s.runs[a].order)
    ensures KeepsHandedOff(s, Apply(s, e), a)
  {
    match e
    case OrderPoll(signals, envs) => OrderPollKeepsRun(s, signals, envs, a);
    case RunSweep(force, waited, scan, env) => RunSweepKeepsHandedOff(s, force, waited, scan, env, a);
    case OperatorReject(o, cancelled) =>
    case ButtonReject(o, agent) =>
    case Restart =>
    case Pass(d) =>
  }

  lemma KeepsTransitive(s: State, s1: State, t: State, a: AgentId)
    requires a in s.runs && KeepsHandedOff(s, s1, a) && KeepsHandedOff(s1, t, a)
    ensures KeepsHandedOff(s, t, a)
  {
    forall i | |s.finished| <= i < |t.finished| && t.finished[i].order == s.runs[a].order
      ensures t.finished[i].writer.FrontEnd?
    {
      if i < |s1.finished| { assert t.finished[i] == s1.finished[i]; }
    }
  }

  /** Once a run has a PR URL nothing but an operator's refusal of its own order changes it, and the
      manager never publishes for that order again: not while it goes on polling and restarting, nor
      when the front end rejects the order or other orders are refused. */
  lemma {:induction false} HandOffIsPermanent(s: State, events: seq<Event>, a: AgentId)
    requires Inv(s) && AllWellFormed(events)
    requires a in s.runs && s.runs[a].prUrl != "" && NotRefused(events, s.runs[a].order)
    ensures KeepsHandedOff(s, After(s, events), a)
    decreases |events|
  {
    if events != [] {
      var s1 := Apply(s, events[0]);
      assert events[0] in events;
      EventKeepsHandedOff(s, events[0], a);
      ApplyKeeps(s, events[0]);
      HandOffIsPermanent(s1, events[1..], a);
      KeepsTransitive(s, s1, After(s, events), a);
    }
  }

  // --- exactly when an order is reported once -----------------------------------

  /** Entries and runs are only ever added. */
  ghost predicate Grows(s: State, t: State) {
    && s.finished <= t.finished
    && forall a :: a in s.runs ==> a in t.runs && t.runs[a].order == s.runs[a].order
  }

  lemma {:induction false} SweepGrows(s: State, live: seq<AgentId>, already: seq<Entry>, env: RunEnv)
    requires forall b :: b in live ==> b in s.runs
    ensures var t := Sweep(s, live, already, env).0; Grows(s, t) && t.launches == s.launches
    decreases |live|
  {
    if live != [] {
      VisitEffect(s, live[0], already, env);
      SweepGrows(VisitRun(s, live[0], already, env).0, live[1..], already, env);
    }
  }

  lemma PollOrdersGrows(s: State, signals: seq<Signal>, envs: nat -> LaunchEnv)
    requires Numbered(s)
    ensures Grows(s, PollOrders(s, signals, envs).0)
  {
    var queue := s.pending + signals;
    DrainLeavesRuns(s.(pending := queue), queue, EnvsOf(queue, envs));
  }

  lemma PollRunsGrows(s: State, force: bool, waited: Duration, scan: seq<AgentId>, env: RunEnv)
    ensures var t := PollRuns(s, force, waited, scan, env).0; Grows(s, t) && t.launches == s.launches
  {
    PollIsSweep(s, force, waited, scan, env);
    SweepGrows(Begun(s, waited), LiveIn(s.runs, scan), s.finished, env);
  }

  lemma RejectGrows(s: State, o: OrderId, cancelled: bool)
    ensures var t := Reject(s, o, cancelled).0; Grows(s, t) && t.launches == s.launches
  {
  }

  lemma ApplyGrows(s: State, e: Event)
    requires Numbered(s)
    ensures Grows(s, Apply(s, e))
  {
    match e
    case OrderPoll(signals, envs) => PollOrdersGrows(s, signals, envs);
    case RunSweep(force, waited, scan, env) => PollRunsGrows(s, force, waited, scan, env);
    case OperatorReject(o, cancelled) => RejectGrows(s, o, cancelled);
    case ButtonReject(o, agent) =>
    case Restart =>
    case Pass(d) =>
  }

  lemma SpoiledStays(fin: seq<Entry>, more: seq<Entry>)
    requires !Clean(fin) && fin <= more
    ensures !Clean(more)
  {
    var j :| 0 <= j < |fin| && (fin[j].writer == LaunchFailure(true) || (fin[j].writer.FrontEnd? && Repeats(fin, j)));
    assert more[j] == fin[j];
    assert Repeats(fin, j) ==> Repeats(more, j) by {
      assert forall i :: 0 <= i < j ==> more[i] == fin[i];
    }
  }

  lemma {:induction false} BeforeGrows(s: State, queue: seq<Signal>, envs: seq<LaunchEnv>, k: nat, m: nat)
    requires Numbered(s) && |envs| == |queue| && k <= m <= |queue|
    ensures Numbered(Before(s, queue, envs, m))
    ensures Before(s, queue, envs, k).finished <= Before(s, queue, envs, m).finished
    decreases m
  {
    DrainLeavesRuns(s, queue[..m], envs[..m]);
    if k < m {
      BeforeGrows(s, queue, envs, k, m - 1);
      BeforeNext(s, queue, envs, m - 1);
      HandleOrderLeavesRuns(Before(s, queue, envs, m - 1), queue[m - 1], envs[m - 1]);
    }
  }

  lemma RaceSpoils(s: State, signal: Signal, env: LaunchEnv)
    requires Races(s, signal, env)
    ensures !Clean(HandleOrder(s, signal, env).0.finished)
  {
    var s1 := Tick(s, env.waited);
    var t := HandleOrder(s, signal, env).0;
    LaunchWrites(s1, signal.order, env);
    assert t.finished[|s.finished| + 1].writer == LaunchFailure(true);
  }

  lemma ImpoliteSpoils(s: State, e: Event)
    requires Numbered(s) && !Polite(s, e)
    ensures !Clean(Apply(s, e).finished)
  {
    match e
    case ButtonReject(o, agent) =>
      var t := Apply(s, e).finished;
      var i :| 0 <= i < |s.finished| && Recent(s.finished, i) && s.finished[i].order == o;
      assert t[i].order == t[|s.finished|].order;
      assert Repeats(t, |s.finished|);
    case OrderPoll(signals, envs) =>
      var queue := s.pending + signals;
      var s0, es := s.(pending := queue), EnvsOf(queue, envs);
      var k :| 0 <= k < |queue| && Races(Before(s0, queue, es, k), queue[k], es[k]);
      RaceSpoils(Before(s0, queue, es, k), queue[k], es[k]);
      BeforeNext(s0, queue, es, k);
      BeforeGrows(s0, queue, es, k + 1, |queue|);
      BeforeEnds(s0, queue, es);
      SpoiledStays(Before(s0, queue, es, k + 1).finished, Apply(s, e).finished);
  }

  lemma {:induction false} AfterGrows(s: State, events: seq<Event>)
    requires Inv(s) && AllWellFormed(events)
    ensures Grows(s, After(s, events))
    decreases |events|
  {
    if events != [] {
      assert events[0] in events;
      ApplyGrows(s, events[0]);
      ApplyKeeps(s, events[0]);
      AfterGrows(Apply(s, events[0]), events[1..]);
    }
  }

  lemma {:induction false} AfterCleanIff(s: State, events: seq<Event>)
    requires Inv(s) && Clean(s.finished) && AllWellFormed(events)
    ensures Clean(After(s, events).finished) <==> AlwaysPolite(s, events)
    decreases |events|
  {
    if events != [] {
      var e, s1 := events[0], Apply(s, events[0]);
      assert e in events;
      ApplyKeeps(s, e);
      if Polite(s, e) {
        ApplyClean(s, e);
        AfterCleanIff(s1, events[1..]);
      } else {
        ImpoliteSpoils(s, e);
        AfterGrows(s1, events[1..]);
        SpoiledStays(s1.finished, After(s, events).finished);
      }
    }
  }

  lemma CleanMeansNoRepeats(fin: seq<Entry>)
    requires RepeatsOnlyRaces(fin)
    ensures Clean(fin) <==>
            forall i, j :: 0 <= i < j < |fin| && fin[i].order == fin[j].order ==> j > i + FINISHED_WINDOW
  {
    if Clean(fin) {
      forall i, j | 0 <= i < j < |fin| && fin[i].order == fin[j].order ensures j > i + FINISHED_WINDOW {
        assert j <= i + FINISHED_WINDOW ==> Repeats(fin, j);
      }
    } else {
      var j :| 0 <= j < |fin| && (fin[j].writer == LaunchFailure(true) || (fin[j].writer.FrontEnd? && Repeats(fin, j)));
      assert Repeats(fin, j);
    }
  }

  /** Over every history: as long as its entry can be seen an order has at most one, if and only if
      the front end rejected only orders without a visible entry and no rejection landed in a
      launch that was given up. */
  lemma OneEntryPerOrderIff(cfg: Config, clock: real, events: seq<Event>)
    requires AllWellFormed(events)
    ensures var fin := Reached(cfg, clock, events).finished;
            (forall i, j :: 0 <= i < j < |fin| && fin[i].order == fin[j].order ==> j > i + 200)
            <==> AlwaysPolite(Init(cfg, clock), events)
  {
    InitInv(cfg, clock);
    ReachedInv(cfg, clock, events);
    AfterCleanIff(Init(cfg, clock), events);
    CleanMeansNoRepeats(Reached(cfg, clock, events).finished);
  }
}
