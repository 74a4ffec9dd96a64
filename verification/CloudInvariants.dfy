/**
  What every event of the CloudFactory protocol keeps.

  The invariant ties the run registry, the outcome stream, the manager's retry memory
  and the history of agents and launches together. Each elementary change of
  `CloudProtocol` is shown to keep it, and the loops follow by induction.
 */
module CloudInvariants {
  import opened Wrappers
  import opened CloudProtocol

  type Registry = map<AgentId, CloudRun>

  // --- the registry and the stream ------------------------------------------

  ghost predicate OneRunPerOrder(runs: Registry) {
    forall a, b :: a in runs && b in runs && runs[a].order == runs[b].order ==> a == b
  }

  /** A success is never recorded, neither in the registry nor on the stream. */
  ghost predicate NeverFinished(runs: Registry, fin: seq<Entry>) {
    && (forall a :: a in runs ==> !runs[a].status.Finished?)
    && (forall i :: 0 <= i < |fin| ==> !fin[i].status.Finished?)
  }

  /** A live run whose order is visibly settled was settled as cancelled. */
  ghost predicate LiveMeansCancelled(runs: Registry, fin: seq<Entry>) {
    forall a, i ::
      a in runs && runs[a].Live() && 0 <= i < |fin| && Recent(fin, i) && fin[i].order == runs[a].order
      ==> fin[i].status.Cancelled?
  }

  ghost predicate Reported(fin: seq<Entry>, o: OrderId, status: Status) {
    exists i :: 0 <= i < |fin| && fin[i].order == o && fin[i].status == status
  }

  /** Every terminal run has an entry for its order with that same status. */
  ghost predicate TerminalIsReported(runs: Registry, fin: seq<Entry>) {
    forall a :: a in runs && runs[a].status.Terminal() ==> Reported(fin, runs[a].order, runs[a].status)
  }

  /** A manager-written entry naming agent a. */
  ghost predicate Names(e: Entry, a: AgentId) {
    !e.writer.FrontEnd? && e.agent == Some(a)
  }

  ghost predicate LastNaming(fin: seq<Entry>, i: int, a: AgentId) {
    && 0 <= i < |fin| && Names(fin[i], a)
    && forall j :: i < j < |fin| ==> !Names(fin[j], a)
  }

  /** The manager names only registered runs of that order, terminal ever since; the last entry
      naming a run carries the status the registry holds; a launch failure names no agent. */
  ghost predicate EntriesAgree(runs: Registry, fin: seq<Entry>) {
    && (forall i, a :: 0 <= i < |fin| && Names(fin[i], a) ==>
          a in runs && runs[a].order == fin[i].order && runs[a].status.Terminal())
    && (forall i, a :: LastNaming(fin, i, a) ==> a in runs && runs[a].status == fin[i].status)
    && (forall i :: 0 <= i < |fin| && fin[i].writer.LaunchFailure? ==> fin[i].agent.None?)
  }

  ghost predicate RegistryInv(runs: Registry, fin: seq<Entry>) {
    && OneRunPerOrder(runs) && NeverFinished(runs, fin) && LiveMeansCancelled(runs, fin)
    && TerminalIsReported(runs, fin) && EntriesAgree(runs, fin)
  }

  // --- duplicates ------------------------------------------------------------

  /** An earlier entry for the order of entry j stands among the FINISHED_WINDOW before it. */
  ghost predicate Repeats(fin: seq<Entry>, j: int) {
    0 <= j < |fin|
    && exists i :: 0 <= i < j && j <= i + FINISHED_WINDOW && fin[i].order == fin[j].order
  }

  /** The manager repeats a recent entry exactly where a rejection raced a failing launch. */
  ghost predicate RepeatsOnlyRaces(fin: seq<Entry>) {
    forall j :: 0 <= j < |fin| && !fin[j].writer.FrontEnd? ==>
      (Repeats(fin, j) <==> fin[j].writer == LaunchFailure(true))
  }

  // --- agents ----------------------------------------------------------------

  /** Every minted agent is registered or being cancelled, and one that is no longer live
      was asked to cancel or was ended by the provider. */
  ghost predicate NoOrphans(runs: Registry, minted: nat, cancelled: set<AgentId>, ended: set<AgentId>) {
    && (forall a: AgentId :: a < minted ==> a in runs || a in cancelled)
    && (forall a :: a in runs ==> a < minted)
    && (forall a :: a in runs && !runs[a].Live() ==> a in cancelled || a in ended)
  }

  // --- launches --------------------------------------------------------------

  function LaunchCount(launches: seq<Launch>, o: OrderId): nat {
    if launches == [] then 0
    else LaunchCount(launches[..|launches| - 1], o) + if launches[|launches| - 1].order == o then 1 else 0
  }

  ghost predicate HasEntry(fin: seq<Entry>, o: OrderId) {
    exists i :: 0 <= i < |fin| && fin[i].order == o
  }

  /** Some entry for o has scrolled out of the newest FINISHED_WINDOW. */
  ghost predicate Scrolled(fin: seq<Entry>, o: OrderId) {
    exists i :: 0 <= i < |fin| && fin[i].order == o && !Recent(fin, i)
  }

  ghost predicate LaunchesBounded(runs: Registry, fin: seq<Entry>, attempts: map<OrderId, nat>, launches: seq<Launch>) {
    && (forall o :: o in attempts ==> attempts[o] < MAX_LAUNCH_ATTEMPTS)
    && (forall o :: !Scrolled(fin, o) ==> LaunchCount(launches, o) <= MAX_LAUNCH_ATTEMPTS)
    && (forall o :: !HasRun(runs, o) && !HasEntry(fin, o) ==> LaunchCount(launches, o) == Tries(attempts, o))
  }

  /** The moment before which the order of a launch is not to be launched again. */
  function NotBefore(l: Launch): real {
    if l.retry.Some? then l.ended + l.retry.value else l.started
  }

  /** That moment has passed, or the order is held back until then. */
  ghost predicate Waits(l: Launch, blocked: map<OrderId, real>, clock: real) {
    NotBefore(l) <= clock || (l.order in blocked && NotBefore(l) <= blocked[l.order])
  }

  ghost predicate LaunchesSpaced(launches: seq<Launch>, blocked: map<OrderId, real>, clock: real) {
    && (forall k, l :: 0 <= k < l < |launches| && launches[k].order == launches[l].order ==>
          NotBefore(launches[k]) <= launches[l].started)
    && (forall k :: 0 <= k < |launches| ==> Waits(launches[k], blocked, clock))
  }

  ghost predicate Inv(s: State) {
    && RegistryInv(s.runs, s.finished)
    && RepeatsOnlyRaces(s.finished)
    && NoOrphans(s.runs, s.nextAgent, s.cancelRequested, s.providerEnded)
    && LaunchesBounded(s.runs, s.finished, s.attempts, s.launches)
    && LaunchesSpaced(s.launches, s.blockedUntil, s.clock)
  }

  // --- one more entry --------------------------------------------------------

  ghost predicate RecentFor(fin: seq<Entry>, o: OrderId) {
    exists i :: 0 <= i < |fin| && Recent(fin, i) && fin[i].order == o
  }

  lemma AppendKeepsRepeats(fin: seq<Entry>, e: Entry)
    requires RepeatsOnlyRaces(fin)
    requires !e.writer.FrontEnd? ==> (RecentFor(fin, e.order) <==> e.writer == LaunchFailure(true))
    ensures RepeatsOnlyRaces(fin + [e])
  {
    var t := fin + [e];
    forall j | 0 <= j < |t| && !t[j].writer.FrontEnd?
      ensures Repeats(t, j) <==> t[j].writer == LaunchFailure(true)
    {
      if j < |fin| {
        assert Repeats(t, j) <==> Repeats(fin, j) by {
          assert forall i :: 0 <= i < j ==> t[i] == fin[i];
        }
      } else {
        if RecentFor(fin, e.order) {
          var i :| 0 <= i < |fin| && Recent(fin, i) && fin[i].order == e.order;
          assert t[i].order == t[j].order && j <= i + FINISHED_WINDOW;
        }
        if Repeats(t, j) {
          var i :| 0 <= i < j && j <= i + FINISHED_WINDOW && t[i].order == t[j].order;
          assert fin[i].order == e.order && Recent(fin, i);
        }
      }
    }
  }

  lemma AppendKeepsBounds(runs: Registry, fin: seq<Entry>, e: Entry, attempts: map<OrderId, nat>, launches: seq<Launch>)
    requires LaunchesBounded(runs, fin, attempts, launches)
    ensures LaunchesBounded(runs, fin + [e], attempts, launches)
  {
    var t := fin + [e];
    assert forall i :: 0 <= i < |fin| ==> t[i] == fin[i];
    forall o | Scrolled(fin, o) ensures Scrolled(t, o) {
      var i :| 0 <= i < |fin| && fin[i].order == o && !Recent(fin, i);
      assert t[i] == fin[i];
    }
    forall o | HasEntry(fin, o) ensures HasEntry(t, o) {
      var i :| 0 <= i < |fin| && fin[i].order == o;
      assert t[i] == fin[i];
    }
  }

  /** An entry that names no run, and that cannot mislead a live one, keeps the registry invariant. */
  lemma AppendKeepsRegistry(runs: Registry, fin: seq<Entry>, e: Entry)
    requires RegistryInv(runs, fin)
    requires !e.status.Finished? && (e.status.Cancelled? || !HasRun(runs, e.order))
    requires e.writer.FrontEnd? || e.agent.None?
    ensures RegistryInv(runs, fin + [e])
  {
    var t := fin + [e];
    assert forall i :: 0 <= i < |fin| ==> t[i] == fin[i];
    forall o, status | Reported(fin, o, status) ensures Reported(t, o, status) {
      var i :| 0 <= i < |fin| && fin[i].order == o && fin[i].status == status;
      assert t[i] == fin[i];
    }
    forall i, a | LastNaming(t, i, a) ensures LastNaming(fin, i, a) {}
  }

  // --- one order -------------------------------------------------------------

  lemma RegisterKeepsRegistry(s: State, o: OrderId)
    requires RegistryInv(s.runs, s.finished)
    requires NoOrphans(s.runs, s.nextAgent, s.cancelRequested, s.providerEnded)
    requires !HasRun(s.runs, o) && Settled(s.finished, o).None?
    ensures RegistryInv(Register(s, o).runs, s.finished)
  {
    SettledMeaning(s.finished, o);
    var runs := Register(s, o).runs;
    assert forall a :: a in s.runs ==> a in runs && runs[a] == s.runs[a];
    assert forall a :: a in runs && a !in s.runs ==> runs[a] == CloudRun(o, Running, "");
  }

  lemma CountAppend(launches: seq<Launch>, l: Launch, o: OrderId)
    ensures LaunchCount(launches + [l], o) == LaunchCount(launches, o) + if l.order == o then 1 else 0
  {
    assert (launches + [l])[..|launches|] == launches;
  }

  /** An order that passes the checks of the manager and has no scrolled entry has no entry at all. */
  lemma UnsettledMeansNoEntry(fin: seq<Entry>, o: OrderId)
    requires Settled(fin, o).None?
    ensures HasEntry(fin, o) ==> Scrolled(fin, o)
    ensures !RecentFor(fin, o)
  {
    SettledMeaning(fin, o);
  }

  /** The manager is about to call launch for o. */
  predicate CallsLaunch(s: State, o: OrderId) {
    && !HasRun(s.runs, o) && Settled(s.finished, o).None?
    && (if o in s.blockedUntil then s.blockedUntil[o] else 0.0) <= s.clock
  }

  ghost function Launched(s: State, o: OrderId, env: LaunchEnv): State {
    AfterLaunch(CallLaunch(s, o, env), o, env).0
  }

  /** The launch of o fails and the manager gives the order up. */
  predicate GivesUp(s: State, o: OrderId, env: LaunchEnv) {
    !env.outcome.Minted? && !Requeues(s, o, env.outcome)
  }

  /** What a launch adds to the stream, and whom it registers. */
  lemma LaunchWrites(s: State, o: OrderId, env: LaunchEnv)
    ensures var t := Launched(s, o, env);
            var rejection := if env.rejectedMeanwhile then [Entry(None, o, Cancelled, FrontEnd)] else [];
            var report := if GivesUp(s, o, env) then [Entry(None, o, StartupError, LaunchFailure(env.rejectedMeanwhile))] else [];
            && t.finished == s.finished + rejection + report
            && (t.runs == s.runs
                || (t.runs == s.runs[s.nextAgent := CloudRun(o, Running, "")] && Settled(t.finished, o).None?))
            && t.nextAgent == s.nextAgent + (if env.outcome.Minted? then 1 else 0)
            && (t.nextAgent == s.nextAgent ==> t.runs == s.runs)
  {
  }

  lemma LaunchKeepsRegistry(s: State, o: OrderId, env: LaunchEnv)
    requires Inv(s) && CallsLaunch(s, o)
    ensures var t := Launched(s, o, env);
            RegistryInv(t.runs, t.finished)
  {
    var s1 := CallLaunch(s, o, env);
    if env.rejectedMeanwhile { AppendKeepsRegistry(s.runs, s.finished, Entry(None, o, Cancelled, FrontEnd)); }
    match env.outcome
    case Minted =>
      if Settled(s1.finished, o).None? { RegisterKeepsRegistry(s1, o); }
    case _ =>
      AppendKeepsRegistry(s1.runs, s1.finished, Entry(None, o, StartupError, LaunchFailure(env.rejectedMeanwhile)));
  }

  lemma LaunchKeepsRepeats(s: State, o: OrderId, env: LaunchEnv)
    requires RepeatsOnlyRaces(s.finished) && CallsLaunch(s, o)
    ensures RepeatsOnlyRaces(Launched(s, o, env).finished)
  {
    var s1 := CallLaunch(s, o, env);
    UnsettledMeansNoEntry(s.finished, o);
    if env.rejectedMeanwhile {
      AppendKeepsRepeats(s.finished, Entry(None, o, Cancelled, FrontEnd));
      assert s1.finished[|s.finished|].order == o && Recent(s1.finished, |s.finished|);
    }
    if !env.outcome.Minted? && !Requeues(s1, o, env.outcome) {
      AppendKeepsRepeats(s1.finished, Entry(None, o, StartupError, LaunchFailure(env.rejectedMeanwhile)));
    }
  }

  lemma LaunchKeepsOrphans(s: State, o: OrderId, env: LaunchEnv)
    requires NoOrphans(s.runs, s.nextAgent, s.cancelRequested, s.providerEnded)
    ensures var t := Launched(s, o, env);
            NoOrphans(t.runs, t.nextAgent, t.cancelRequested, t.providerEnded)
  {
  }

  /** A launch of an order that is no longer held back, and then held back if it is requeued. */
  lemma SpacingAppend(launches: seq<Launch>, blocked: map<OrderId, real>, clock: real,
                      l: Launch, blocked': map<OrderId, real>, clock': real)
    requires LaunchesSpaced(launches, blocked, clock)
    requires l.started == clock <= clock' && (l.order in blocked ==> blocked[l.order] <= clock)
    requires forall q :: q in blocked && q != l.order ==> q in blocked' && blocked'[q] == blocked[q]
    requires Waits(l, blocked', clock')
    ensures LaunchesSpaced(launches + [l], blocked', clock')
  {
    forall k | 0 <= k < |launches|
      ensures Waits(launches[k], blocked', clock')
      ensures launches[k].order == l.order ==> NotBefore(launches[k]) <= l.started
    {
      assert Waits(launches[k], blocked, clock);
    }
  }

  lemma LaunchKeepsSpacing(s: State, o: OrderId, env: LaunchEnv)
    requires LaunchesSpaced(s.launches, s.blockedUntil, s.clock)
    requires o in s.blockedUntil ==> s.blockedUntil[o] <= s.clock
    ensures var t := Launched(s, o, env);
            LaunchesSpaced(t.launches, t.blockedUntil, t.clock)
  {
    var t := Launched(s, o, env);
    var l := CallLaunch(s, o, env).launches[|s.launches|];
    assert t.launches == s.launches + [l];
    SpacingAppend(s.launches, s.blockedUntil, s.clock, l, t.blockedUntil, t.clock);
  }

  /** A launch is counted for its own order. */
  lemma LaunchCounts(s: State, o: OrderId, env: LaunchEnv, q: OrderId)
    ensures LaunchCount(Launched(s, o, env).launches, q) == LaunchCount(s.launches, q) + if q == o then 1 else 0
  {
    var l := CallLaunch(s, o, env).launches[|s.launches|];
    assert Launched(s, o, env).launches == s.launches + [l];
    CountAppend(s.launches, l, q);
  }

  lemma LaunchKeepsBounds(s: State, o: OrderId, env: LaunchEnv)
    requires LaunchesBounded(s.runs, s.finished, s.attempts, s.launches) && CallsLaunch(s, o)
    requires s.nextAgent !in s.runs
    ensures var t := Launched(s, o, env);
            LaunchesBounded(t.runs, t.finished, t.attempts, t.launches)
  {
    var t := Launched(s, o, env);
    LaunchLeavesTrace(s, o, env);
    LaunchKeepsRuns(s, o, env);
    UnsettledMeansNoEntry(s.finished, o);
    BoundsFollow(s, t, o, env);
  }

  lemma BoundsFollow(s: State, t: State, o: OrderId, env: LaunchEnv)
    requires LaunchesBounded(s.runs, s.finished, s.attempts, s.launches)
    requires t == Launched(s, o, env) && s.finished <= t.finished
    requires !HasRun(s.runs, o) && (HasEntry(s.finished, o) ==> Scrolled(s.finished, o))
    requires forall q :: q in t.attempts ==> t.attempts[q] < MAX_LAUNCH_ATTEMPTS
    requires HasRun(t.runs, o) || HasEntry(t.finished, o) || Tries(t.attempts, o) == Tries(s.attempts, o) + 1
    requires forall q :: q != o ==> Tries(t.attempts, q) == Tries(s.attempts, q)
    requires forall q :: HasRun(s.runs, q) ==> HasRun(t.runs, q)
    ensures LaunchesBounded(t.runs, t.finished, t.attempts, t.launches)
  {
    forall q: OrderId
      ensures LaunchCount(t.launches, q) == LaunchCount(s.launches, q) + if q == o then 1 else 0
      ensures Scrolled(s.finished, q) ==> Scrolled(t.finished, q)
      ensures HasEntry(s.finished, q) ==> HasEntry(t.finished, q)
    {
      LaunchCounts(s, o, env, q);
      ScrollGrows(s.finished, t.finished, q);
    }
  }

  /** A launch ends in a run, in an entry, or in one more remembered attempt; other orders
      see no change. */
  lemma LaunchLeavesTrace(s: State, o: OrderId, env: LaunchEnv)
    requires forall q :: q in s.attempts ==> s.attempts[q] < MAX_LAUNCH_ATTEMPTS
    ensures var t := Launched(s, o, env);
            && s.finished <= t.finished
            && (forall q :: q in t.attempts ==> t.attempts[q] < MAX_LAUNCH_ATTEMPTS)
            && (HasRun(t.runs, o) || HasEntry(t.finished, o) || Tries(t.attempts, o) == Tries(s.attempts, o) + 1)
            && (forall q :: q != o ==> Tries(t.attempts, q) == Tries(s.attempts, q))
  {
    var s1 := CallLaunch(s, o, env);
    var t := Launched(s, o, env);
    SettledMeaning(s1.finished, o);
    match env.outcome {
      case Minted => if Settled(s1.finished, o).None? { assert t.runs[s.nextAgent].order == o; }
      case _ => assert Requeues(s1, o, env.outcome) || t.finished[|s1.finished|].order == o;
    }
  }

  lemma LaunchKeepsRuns(s: State, o: OrderId, env: LaunchEnv)
    requires s.nextAgent !in s.runs
    ensures forall q :: HasRun(s.runs, q) ==> HasRun(Launched(s, o, env).runs, q)
  {
    LaunchWrites(s, o, env);
    forall q | HasRun(s.runs, q) ensures HasRun(Launched(s, o, env).runs, q) {
      var a :| a in s.runs && s.runs[a].order == q;
      assert Launched(s, o, env).runs[a].order == q;
    }
  }

  /** Entries are never removed, so what scrolled out stays out and what was written stays written. */
  lemma ScrollGrows(before: seq<Entry>, after: seq<Entry>, o: OrderId)
    requires before <= after
    ensures Scrolled(before, o) ==> Scrolled(after, o)
    ensures HasEntry(before, o) ==> HasEntry(after, o)
  {
    if Scrolled(before, o) {
      var i :| 0 <= i < |before| && before[i].order == o && !Recent(before, i);
      assert after[i] == before[i];
    }
    if HasEntry(before, o) {
      var i :| 0 <= i < |before| && before[i].order == o;
      assert after[i] == before[i];
    }
  }

  lemma HandleOrderKeeps(s: State, signal: Signal, env: LaunchEnv)
    requires Inv(s)
    ensures Inv(HandleOrder(s, signal, env).0)
  {
    if signal.Usable? && !HasRun(s.runs, signal.order) && Settled(s.finished, signal.order).None? {
      var s1 := Tick(s, env.waited);
      assert LaunchesSpaced(s1.launches, s1.blockedUntil, s1.clock) by {
        forall k | 0 <= k < |s.launches| ensures Waits(s1.launches[k], s1.blockedUntil, s1.clock) {
          assert Waits(s.launches[k], s.blockedUntil, s.clock);
        }
      }
      if CallsLaunch(s1, signal.order) {
        LaunchKeepsRegistry(s1, signal.order, env);
        LaunchKeepsRepeats(s1, signal.order, env);
        LaunchKeepsOrphans(s1, signal.order, env);
        LaunchKeepsBounds(s1, signal.order, env);
        LaunchKeepsSpacing(s1, signal.order, env);
      }
    }
  }

  lemma {:induction false} DrainKeeps(s: State, queue: seq<Signal>, envs: seq<LaunchEnv>)
    requires Inv(s) && |envs| == |queue|
    ensures Inv(DrainOrders(s, queue, envs).0)
    decreases |queue|
  {
    if queue != [] {
      var n := |queue| - 1;
      DrainKeeps(s, queue[..n], envs[..n]);
      HandleOrderKeeps(DrainOrders(s, queue[..n], envs[..n]).0, queue[n], envs[n]);
    }
  }

  // --- one run ---------------------------------------------------------------

  /** No entry the manager can see settles the order of run a. */
  ghost predicate Unsettled(s: State, a: AgentId)
    requires a in s.runs
  {
    !RecentFor(s.finished, s.runs[a].order)
  }

  /** Changing the status of a live run, or storing its PR URL, leaves the launch bookkeeping alone. */
  lemma ChangeRunKeepsBounds(s: State, a: AgentId, run: CloudRun)
    requires LaunchesBounded(s.runs, s.finished, s.attempts, s.launches)
    requires a in s.runs && run.order == s.runs[a].order
    ensures LaunchesBounded(s.runs[a := run], s.finished, s.attempts, s.launches)
  {
    var runs := s.runs[a := run];
    forall o | HasRun(s.runs, o) ensures HasRun(runs, o) {
      var b :| b in s.runs && s.runs[b].order == o;
      assert runs[b].order == o;
    }
  }

  /** A change to one run's status that the stream already accounts for. */
  lemma ChangeRunKeepsRegistry(runs: Registry, fin: seq<Entry>, a: AgentId, run: CloudRun)
    requires RegistryInv(runs, fin)
    requires a in runs && run.order == runs[a].order && !run.status.Finished?
    requires runs[a].Live()
    requires run.status.Terminal() ==> Reported(fin, run.order, run.status)
    ensures RegistryInv(runs[a := run], fin)
  {
    assert forall i :: 0 <= i < |fin| ==> !Names(fin[i], a);
  }

  /** A manager-written terminal entry naming a run, together with that status in the registry. */
  lemma ReportKeepsRegistry(runs: Registry, fin: seq<Entry>, a: AgentId, e: Entry)
    requires RegistryInv(runs, fin)
    requires a in runs && e.order == runs[a].order && e.agent == Some(a)
    requires e.writer.RunPoll? || e.writer.Operator?
    requires e.status.Terminal() && !e.status.Finished?
    ensures RegistryInv(runs[a := runs[a].(status := e.status)], fin + [e])
  {
    var runs' := runs[a := runs[a].(status := e.status)];
    var t := fin + [e];
    assert t[|fin|] == e;
    assert forall i :: 0 <= i < |fin| ==> t[i] == fin[i];
    forall o, status | Reported(fin, o, status) ensures Reported(t, o, status) {
      var i :| 0 <= i < |fin| && fin[i].order == o && fin[i].status == status;
      assert t[i] == fin[i];
    }
    forall i, b | LastNaming(t, i, b) ensures b in runs' && runs'[b].status == t[i].status {
      if b != a { assert LastNaming(fin, i, b); }
    }
  }

  lemma HonorRejectKeeps(s: State, a: AgentId, cancelled: bool)
    requires Inv(s)
    requires a in s.runs && s.runs[a].Live() && Reported(s.finished, s.runs[a].order, Cancelled)
    ensures Inv(HonorReject(s, a, cancelled).0)
  {
    if cancelled {
      var run := s.runs[a].(status := Cancelled);
      ChangeRunKeepsRegistry(s.runs, s.finished, a, run);
      ChangeRunKeepsBounds(s, a, run);
    }
  }

  lemma HandOffKeeps(s: State, a: AgentId, prUrl: string)
    requires Inv(s)
    requires a in s.runs && s.runs[a].Live() && prUrl != ""
    ensures Inv(HandOff(s, a, prUrl))
  {
    var run := s.runs[a].(prUrl := prUrl);
    ChangeRunKeepsRegistry(s.runs, s.finished, a, run);
    ChangeRunKeepsBounds(s, a, run);
  }

  lemma SetStatusKeeps(s: State, a: AgentId, status: Status)
    requires Inv(s)
    requires a in s.runs && s.runs[a].Live() && !status.Terminal()
    ensures Inv(SetStatus(s, a, status))
  {
    var run := s.runs[a].(status := status);
    ChangeRunKeepsRegistry(s.runs, s.finished, a, run);
    ChangeRunKeepsBounds(s, a, run);
  }

  lemma SettleKeeps(s: State, a: AgentId, status: Status)
    requires Inv(s)
    requires a in s.runs && Unsettled(s, a) && status.Terminal() && !status.Finished?
    ensures Inv(Settle(s, a, status))
  {
    var e := Entry(Some(a), s.runs[a].order, status, RunPoll);
    ReportKeepsRegistry(s.runs, s.finished, a, e);
    AppendKeepsRepeats(s.finished, e);
    ChangeRunKeepsBounds(s, a, s.runs[a].(status := status));
    AppendKeepsBounds(s.runs[a := s.runs[a].(status := status)], s.finished, e, s.attempts, s.launches);
  }

  lemma CancelRunKeeps(s: State, a: AgentId, cancelled: bool)
    requires Inv(s)
    requires a in s.runs && Unsettled(s, a)
    ensures Inv(CancelRun(s, a, cancelled).0)
  {
    if cancelled {
      var e := Entry(Some(a), s.runs[a].order, Cancelled, Operator);
      ReportKeepsRegistry(s.runs, s.finished, a, e);
      AppendKeepsRepeats(s.finished, e);
      ChangeRunKeepsBounds(s, a, s.runs[a].(status := Cancelled));
      AppendKeepsBounds(s.runs[a := s.runs[a].(status := Cancelled)], s.finished, e, s.attempts, s.launches);
    }
  }

  // --- a sweep of the live runs ----------------------------------------------

  /** What stays true of the agents still to be visited: they are live, distinct, and
      nothing was written for their orders since the stream was read. */
  ghost predicate Untouched(s: State, live: seq<AgentId>, already: seq<Entry>) {
    && already <= s.finished
    && NoDup(live)
    && (forall a :: a in live ==> a in s.runs && s.runs[a].Live())
    && (forall a, i :: a in live && |already| <= i < |s.finished| ==> s.finished[i].order != s.runs[a].order)
  }

  /** A visit changes only its own run, and writes only for that run's order. */
  lemma VisitEffect(s: State, a: AgentId, already: seq<Entry>, env: RunEnv)
    requires a in s.runs
    ensures var t := VisitRun(s, a, already, env).0;
            && t.runs.Keys == s.runs.Keys && t.runs[a].order == s.runs[a].order
            && (forall b :: b in s.runs && b != a ==> t.runs[b] == s.runs[b])
            && s.finished <= t.finished
            && (forall i :: |s.finished| <= i < |t.finished| ==> t.finished[i].order == s.runs[a].order)
  {
  }

  lemma VisitLeavesRest(s: State, live: seq<AgentId>, already: seq<Entry>, env: RunEnv)
    requires OneRunPerOrder(s.runs) && live != [] && Untouched(s, live, already)
    ensures Untouched(VisitRun(s, live[0], already, env).0, live[1..], already)
  {
    var a := live[0];
    var t := VisitRun(s, a, already, env).0;
    VisitEffect(s, a, already, env);
    forall b | b in live[1..]
      ensures b != a && b in live && t.runs[b] == s.runs[b] && s.runs[b].order != s.runs[a].order
    {
      var k :| 0 <= k < |live[1..]| && live[1..][k] == b;
      assert live[k + 1] == b;
    }
  }

  lemma VisitKeepsInv(s: State, a: AgentId, already: seq<Entry>, env: RunEnv)
    requires Inv(s) && Untouched(s, [a], already)
    ensures a in s.runs && Inv(VisitRun(s, a, already, env).0)
  {
    assert a in [a];
    var o := s.runs[a].order;
    var done := Settled(already, o);
    if done.Some? && done.value.status.Cancelled? {
      SettledMeaning(already, o);
      var i :| Recent(already, i) && IsNewest(already, o, done.value, i);
      assert s.finished[i] == already[i];
      HonorRejectKeeps(s, a, env.cancels(a));
    } else if env.answers(a).Answer? {
      VisitAnswered(s, a, already, env.answers(a));
    }
  }

  /** If the stream as read does not show the order cancelled, it is not visibly settled at all. */
  lemma VisibleIsCancelled(s: State, a: AgentId, already: seq<Entry>)
    requires RegistryInv(s.runs, s.finished) && Untouched(s, [a], already) && a in s.runs
    requires var done := Settled(already, s.runs[a].order); done.None? || !done.value.status.Cancelled?
    ensures Unsettled(s, a)
  {
    assert a in [a];
    var o := s.runs[a].order;
    SettledMeaning(already, o);
    var done := Settled(already, o);
    if done.Some? {
      var i :| Recent(already, i) && IsNewest(already, o, done.value, i);
      assert s.finished[i] == already[i];
    }
    assert forall k :: 0 <= k < |already| ==> s.finished[k] == already[k];
  }

  lemma VisitAnswered(s: State, a: AgentId, already: seq<Entry>, answer: PollAnswer)
    requires Inv(s) && Untouched(s, [a], already) && answer.Answer?
    requires a in s.runs
    requires var done := Settled(already, s.runs[a].order); done.None? || !done.value.status.Cancelled?
    ensures Inv(ApplyState(s, a, answer).0)
  {
    assert a in [a];
    var o := s.runs[a].order;
    var status := Normalised(answer.status);
    if answer.prUrl != "" {
      HandOffKeeps(s, a, answer.prUrl);
    } else if status.Terminal() {
      VisibleIsCancelled(s, a, already);
      SettleKeeps(s, a, status);
    } else {
      SetStatusKeeps(s, a, status);
    }
  }

  lemma {:induction false} SweepKeeps(s: State, live: seq<AgentId>, already: seq<Entry>, env: RunEnv)
    requires Inv(s) && Untouched(s, live, already)
    ensures Inv(Sweep(s, live, already, env).0)
    decreases |live|
  {
    if live != [] {
      var a := live[0];
      assert a in live && Untouched(s, [a], already);
      VisitKeepsInv(s, a, already, env);
      VisitLeavesRest(s, live, already, env);
      SweepKeeps(VisitRun(s, a, already, env).0, live[1..], already, env);
    }
  }

  lemma {:induction false} LiveInNoDup(runs: Registry, scan: seq<AgentId>)
    requires NoDup(scan)
    ensures NoDup(LiveIn(runs, scan))
  {
    if scan != [] {
      assert forall a :: a in scan[1..] ==> a != scan[0] by {
        forall k | 0 <= k < |scan[1..]| ensures scan[1..][k] != scan[0] { assert scan[1..][k] == scan[k + 1]; }
      }
      assert NoDup(scan[1..]) by {
        forall i, j | 0 <= i < j < |scan[1..]| ensures scan[1..][i] != scan[1..][j] {
          assert scan[i + 1] != scan[j + 1];
        }
      }
      LiveInNoDup(runs, scan[1..]);
    }
  }

  // --- every event -----------------------------------------------------------

  lemma TickKeeps(s: State, d: Duration)
    requires Inv(s)
    ensures Inv(Tick(s, d))
  {
    forall k | 0 <= k < |s.launches| ensures Waits(s.launches[k], s.blockedUntil, s.clock + d) {
      assert Waits(s.launches[k], s.blockedUntil, s.clock);
    }
  }

  lemma RejectKeeps(s: State, o: OrderId, cancelled: bool)
    requires Inv(s)
    ensures Inv(Reject(s, o, cancelled).0)
  {
    SettledMeaning(s.finished, o);
    if o != "" && Settled(s.finished, o).None? {
      if HasRun(s.runs, o) {
        var a :| a in s.runs && s.runs[a].order == o && Reject(s, o, cancelled) == CancelRun(s, a, cancelled);
        CancelRunKeeps(s, a, cancelled);
      } else {
        var e := Entry(None, o, Cancelled, Operator);
        AppendKeepsRegistry(s.runs, s.finished, e);
        AppendKeepsRepeats(s.finished, e);
        AppendKeepsBounds(s.runs, s.finished, e, s.attempts, s.launches);
      }
    }
  }

  lemma PollOrdersKeeps(s: State, signals: seq<Signal>, envs: nat -> LaunchEnv)
    requires Inv(s)
    ensures Inv(PollOrders(s, signals, envs).0)
  {
    var queue := s.pending + signals;
    DrainKeeps(s.(pending := queue), queue, seq(|queue|, i requires 0 <= i < |queue| => envs(i)));
  }

  lemma FullSweepKeeps(s: State, scan: seq<AgentId>, env: RunEnv)
    requires Inv(s) && NoDup(scan)
    ensures Inv(Sweep(s, LiveIn(s.runs, scan), s.finished, env).0)
  {
    LiveInNoDup(s.runs, scan);
    SweepKeeps(s, LiveIn(s.runs, scan), s.finished, env);
  }

  lemma ScheduleKeeps(s: State, next: real)
    requires Inv(s)
    ensures Inv(s.(nextRunPoll := next))
  {
  }

  lemma PollRunsKeeps(s: State, force: bool, waited: Duration, scan: seq<AgentId>, env: RunEnv)
    requires Inv(s) && NoDup(scan)
    ensures Inv(PollRuns(s, force, waited, scan, env).0)
  {
    TickKeeps(s, waited);
    PollIsSweep(s, force, waited, scan, env);
    if IsDue(s, force, waited) {
      ScheduleKeeps(Tick(s, waited), Begun(s, waited).nextRunPoll);
      FullSweepKeeps(Begun(s, waited), scan, env);
    }
  }

  lemma FrontEndKeeps(s: State, o: OrderId, agent: Option<AgentId>)
    requires Inv(s)
    ensures Inv(FrontEndReject(s, o, agent))
  {
    var entry := Entry(agent, o, Cancelled, FrontEnd);
    AppendKeepsRegistry(s.runs, s.finished, entry);
    AppendKeepsRepeats(s.finished, entry);
    AppendKeepsBounds(s.runs, s.finished, entry, s.attempts, s.launches);
  }

  lemma RestartKeeps(s: State)
    requires Inv(s)
    ensures Inv(Restarted(s))
  {
  }

  lemma ApplyKeeps(s: State, e: Event)
    requires Inv(s) && WellFormed(e)
    ensures Inv(Apply(s, e))
  {
    match e
    case OrderPoll(signals, envs) => PollOrdersKeeps(s, signals, envs);
    case RunSweep(force, waited, scan, env) => PollRunsKeeps(s, force, waited, scan, env);
    case OperatorReject(o, cancelled) => RejectKeeps(s, o, cancelled);
    case ButtonReject(o, agent) => FrontEndKeeps(s, o, agent);
    case Restart => RestartKeeps(s);
    case Pass(d) => TickKeeps(s, d);
  }

  /** The invariant holds after every history of events, from a start with nothing recorded. */
  lemma {:induction false} AfterKeeps(s: State, events: seq<Event>)
    requires Inv(s) && forall e :: e in events ==> WellFormed(e)
    ensures Inv(After(s, events))
    decreases |events|
  {
    if events != [] {
      ApplyKeeps(s, events[0]);
      AfterKeeps(Apply(s, events[0]), events[1..]);
    }
  }

  lemma InitInv(cfg: Config, clock: real)
    ensures Inv(Init(cfg, clock))
  {
  }
}
