/**
  How often and how soon the manager calls launch for one order, over every history of one
  process generation.
 */
module CloudLaunches {
  import opened CloudProtocol
  import opened CloudInvariants
  import opened CloudTheorems

  /** Within one process generation an order is launched at most MAX_LAUNCH_ATTEMPTS times,
      unless an entry for it has scrolled out of the manager's sight. */
  lemma LaunchedAtMostThreeTimes(cfg: Config, clock: real, events: seq<Event>, o: OrderId)
    requires AllWellFormed(events)
    requires !Scrolled(Reached(cfg, clock, events).finished, o)
    ensures LaunchCount(Reached(cfg, clock, events).launches, o) <= 3
  {
    ReachedInv(cfg, clock, events);
  }

  /** A launch after which the order was not put back in the queue has left a run or an entry, and
      a later launch of the order means that an entry has scrolled out of sight. */
  ghost predicate Decided(runs: Registry, fin: seq<Entry>, launches: seq<Launch>) {
    && (forall k :: 0 <= k < |launches| && launches[k].retry.None? ==>
          HasRun(runs, launches[k].order) || HasEntry(fin, launches[k].order))
    && (forall k, l :: 0 <= k < l < |launches| && launches[k].order == launches[l].order && launches[k].retry.None? ==>
          Scrolled(fin, launches[k].order))
  }

  lemma DecidedGrows(s: State, t: State, launches: seq<Launch>)
    requires Decided(s.runs, s.finished, launches) && Grows(s, t)
    ensures Decided(t.runs, t.finished, launches)
  {
    forall o: OrderId
      ensures HasRun(s.runs, o) ==> HasRun(t.runs, o)
      ensures HasEntry(s.finished, o) ==> HasEntry(t.finished, o)
      ensures Scrolled(s.finished, o) ==> Scrolled(t.finished, o)
    {
      ScrollGrows(s.finished, t.finished, o);
      if HasRun(s.runs, o) {
        var a :| a in s.runs && s.runs[a].order == o;
        assert t.runs[a].order == o;
      }
    }
  }

  lemma LaunchDecides(s: State, o: OrderId, env: LaunchEnv)
    requires CallsLaunch(s, o)
    ensures var t := Launched(s, o, env);
            && |t.launches| == |s.launches| + 1 && t.launches[..|s.launches|] == s.launches
            && var l := t.launches[|s.launches|];
            l.order == o && (l.retry.None? ==> HasRun(t.runs, o) || HasEntry(t.finished, o))
  {
    var s1 := CallLaunch(s, o, env);
    var t := Launched(s, o, env);
    SettledMeaning(s1.finished, o);
    match env.outcome {
      case Minted => if Settled(s1.finished, o).None? { assert t.runs[s.nextAgent].order == o; }
      case _ => assert Requeues(s1, o, env.outcome) || t.finished[|s1.finished|].order == o;
    }
  }

  lemma DecidedAppend(runs: Registry, fin: seq<Entry>, launches: seq<Launch>, l: Launch)
    requires Decided(runs, fin, launches)
    requires l.retry.None? ==> HasRun(runs, l.order) || HasEntry(fin, l.order)
    requires forall k :: 0 <= k < |launches| && launches[k].order == l.order && launches[k].retry.None? ==> Scrolled(fin, l.order)
    ensures Decided(runs, fin, launches + [l])
  {
  }

  lemma LaunchKeepsDecided(s: State, o: OrderId, env: LaunchEnv)
    requires Numbered(s) && Decided(s.runs, s.finished, s.launches) && CallsLaunch(s, o)
    ensures var t := Launched(s, o, env); Decided(t.runs, t.finished, t.launches)
  {
    var t := Launched(s, o, env);
    var n := |s.launches|;
    LaunchLeavesRuns(s, o, env);
    LaunchDecides(s, o, env);
    DecidedGrows(s, t, s.launches);
    UnsettledMeansNoEntry(s.finished, o);
    ScrollGrows(s.finished, t.finished, o);
    assert (forall k :: 0 <= k < n && s.launches[k].order == o && s.launches[k].retry.None? ==> HasEntry(s.finished, o));
    DecidedAppend(t.runs, t.finished, s.launches, t.launches[n]);
    assert t.launches == s.launches + [t.launches[n]];
  }

  lemma HandleOrderKeepsDecided(s: State, signal: Signal, env: LaunchEnv)
    requires Numbered(s) && Decided(s.runs, s.finished, s.launches)
    ensures var t := HandleOrder(s, signal, env).0; Decided(t.runs, t.finished, t.launches)
  {
    if signal.Usable? && CallsLaunch(Tick(s, env.waited), signal.order) {
      LaunchKeepsDecided(Tick(s, env.waited), signal.order, env);
    }
  }

  lemma {:induction false} DrainKeepsDecided(s: State, queue: seq<Signal>, envs: seq<LaunchEnv>)
    requires Numbered(s) && Decided(s.runs, s.finished, s.launches) && |envs| == |queue|
    ensures var t := DrainOrders(s, queue, envs).0; Decided(t.runs, t.finished, t.launches)
    decreases |queue|
  {
    if queue != [] {
      var n := |queue| - 1;
      DrainKeepsDecided(s, queue[..n], envs[..n]);
      DrainLeavesRuns(s, queue[..n], envs[..n]);
      HandleOrderKeepsDecided(DrainOrders(s, queue[..n], envs[..n]).0, queue[n], envs[n]);
    }
  }

  lemma ApplyKeepsDecided(s: State, e: Event)
    requires Numbered(s) && Decided(s.runs, s.finished, s.launches)
    ensures var t := Apply(s, e); Decided(t.runs, t.finished, t.launches)
  {
    match e
    case OrderPoll(signals, envs) =>
      var queue := s.pending + signals;
      DrainKeepsDecided(s.(pending := queue), queue, EnvsOf(queue, envs));
    case RunSweep(force, waited, scan, env) =>
      PollRunsGrows(s, force, waited, scan, env);
      DecidedGrows(s, Apply(s, e), s.launches);
    case OperatorReject(o, cancelled) =>
      RejectGrows(s, o, cancelled);
      DecidedGrows(s, Apply(s, e), s.launches);
    case ButtonReject(o, agent) =>
      ApplyGrows(s, e);
      DecidedGrows(s, Apply(s, e), s.launches);
    case Restart =>
    case Pass(d) =>
  }

  lemma {:induction false} AfterKeepsDecided(s: State, events: seq<Event>)
    requires Inv(s) && Decided(s.runs, s.finished, s.launches) && AllWellFormed(events)
    ensures var t := After(s, events); Decided(t.runs, t.finished, t.launches)
    decreases |events|
  {
    if events != [] {
      assert events[0] in events;
      ApplyKeepsDecided(s, events[0]);
      ApplyKeeps(s, events[0]);
      AfterKeepsDecided(Apply(s, events[0]), events[1..]);
    }
  }

  /** Of any two launches of one order, none of whose entries has scrolled out of sight, the earlier
      one failed and was put back, and the later one comes no sooner than the delay the backend
      asked for, or the default one, after that failure. */
  lemma LaunchesAreApart(cfg: Config, clock: real, events: seq<Event>, k: nat, l: nat)
    requires AllWellFormed(events)
    requires var s := Reached(cfg, clock, events);
             && k < l < |s.launches| && s.launches[k].order == s.launches[l].order
             && !Scrolled(s.finished, s.launches[k].order)
    ensures var launches := Reached(cfg, clock, events).launches;
            launches[k].retry.Some? && launches[l].started >= launches[k].ended + launches[k].retry.value
  {
    InitInv(cfg, clock);
    AfterKeepsDecided(Init(cfg, clock), events);
    RetriesWait(cfg, clock, events, k, l);
  }

  /** An order that was put back is not launched again before its delay has passed, in sight or not. */
  lemma RetriesWait(cfg: Config, clock: real, events: seq<Event>, k: nat, l: nat)
    requires AllWellFormed(events)
    requires var launches := Reached(cfg, clock, events).launches;
             k < l < |launches| && launches[k].order == launches[l].order
    ensures var launches := Reached(cfg, clock, events).launches;
            launches[k].retry.Some? ==> launches[l].started >= launches[k].ended + launches[k].retry.value
  {
    ReachedInv(cfg, clock, events);
    var launches := Reached(cfg, clock, events).launches;
    assert NotBefore(launches[k]) <= launches[l].started;
  }
}
