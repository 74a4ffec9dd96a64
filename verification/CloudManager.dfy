/**
  The CloudFactory manager as the object it is: its memory and the two Redis structures it
  writes are fields, and every method is proved to compute the function of the same name
  in `CloudProtocol`.

  What the agent runtime and the clock answer is passed in. The order in which the key scan
  yields the live runs is chosen by the scan itself and reported back as a ghost result.
 */
module CloudManager {
  import opened Wrappers
  import opened CloudProtocol
  import opened CloudInvariants

  /** Looking one entry further back changes what is seen only for an order not seen yet. */
  lemma {:induction false} NewestOneFurther(finished: seq<Entry>, o: OrderId, lo: nat)
    requires lo < |finished|
    ensures var r := NewestFrom(finished, o, lo + 1);
            NewestFrom(finished, o, lo) ==
              if r.Some? then r else if finished[lo].order == o then Some(finished[lo]) else None
    decreases |finished|
  {
    var n := |finished| - 1;
    if lo < n && finished[n].order != o {
      NewestOneFurther(finished[..n], o, lo);
    }
  }

  /** A key scan: every registered agent, once. */
  ghost predicate Lists(scan: seq<AgentId>, runs: map<AgentId, CloudRun>) {
    NoDup(scan) && forall a :: a in scan <==> a in runs
  }

  /** Agents with their registry records. */
  function Tagged(runs: map<AgentId, CloudRun>, agents: seq<AgentId>): seq<(AgentId, CloudRun)>
    requires forall a :: a in agents ==> a in runs
  {
    seq(|agents|, i requires 0 <= i < |agents| => (agents[i], runs[agents[i]]))
  }

  lemma TaggedMeaning(runs: map<AgentId, CloudRun>, agents: seq<AgentId>)
    requires NoDup(agents) && forall a :: a in agents ==> a in runs
    ensures var out := Tagged(runs, agents);
            && (forall p :: p in out <==> p.0 in agents && p.1 == runs[p.0])
            && (forall i, j :: 0 <= i < j < |out| ==> out[i].0 != out[j].0)
  {
    var out := Tagged(runs, agents);
    forall p: (AgentId, CloudRun) | p.0 in agents && p.1 == runs[p.0] ensures p in out {
      var i :| 0 <= i < |agents| && agents[i] == p.0;
      assert out[i] == p;
    }
  }

  class CloudFactoryManager {
    const cfg: Config
    var runs: map<AgentId, CloudRun>
    var finished: seq<Entry>
    var pending: seq<Signal>
    var attempts: map<OrderId, nat>
    var blockedUntil: map<OrderId, real>
    var nextRunPoll: real
    var clock: real
    var nextAgent: AgentId
    ghost var cancelRequested: set<AgentId>
    ghost var providerEnded: set<AgentId>
    ghost var launches: seq<Launch>

    ghost function View(): State
      reads this
    {
      State(cfg, runs, finished, pending, attempts, blockedUntil, nextRunPoll, clock, nextAgent,
            cancelRequested, providerEnded, launches)
    }

    constructor (cfg: Config, clock: real)
      ensures View() == Init(cfg, clock)
    {
      this.cfg, this.clock := cfg, clock;
      runs, finished, pending, attempts, blockedUntil := map[], [], [], map[], map[];
      nextRunPoll, nextAgent, cancelRequested, providerEnded, launches := 0.0, 0, {}, {}, [];
    }

    // --- reading Redis -------------------------------------------------------

    /** The newest visible entry of each order, from one backward read of the stream. */
    method FinishedByOrder() returns (byOrder: map<OrderId, Entry>)
      ensures forall o :: o in byOrder <==> Settled(finished, o).Some?
      ensures forall o :: o in byOrder ==> byOrder[o] == Settled(finished, o).value
    {
      var oldest := if |finished| <= FINISHED_WINDOW then 0 else |finished| - FINISHED_WINDOW;
      byOrder := map[];
      var i := |finished|;
      while i > oldest
        invariant oldest <= i <= |finished|
        invariant forall o :: o in byOrder <==> NewestFrom(finished, o, i).Some?
        invariant forall o :: o in byOrder ==> byOrder[o] == NewestFrom(finished, o, i).value
      {
        i := i - 1;
        forall o { NewestOneFurther(finished, o, i); }
        if finished[i].order !in byOrder {
          byOrder := byOrder[finished[i].order := finished[i]];
        }
      }
    }

    method SettledOrder(o: OrderId) returns (done: Option<Entry>)
      ensures done == Settled(finished, o)
    {
      var byOrder := FinishedByOrder();
      done := if o in byOrder then Some(byOrder[o]) else None;
    }

    /** The agent launched for an order, from a scan of the registry in any order. */
    method RunForOrder(o: OrderId) returns (agent: Option<AgentId>)
      ensures agent.None? <==> !HasRun(runs, o)
      ensures agent.Some? ==> agent.value in runs && runs[agent.value].order == o
    {
      var keys := runs.Keys;
      while keys != {}
        invariant keys <= runs.Keys
        invariant forall a :: a in runs && a !in keys ==> runs[a].order != o
      {
        var a :| a in keys;
        if runs[a].order == o { return Some(a); }
        keys := keys - {a};
      }
      agent := None;
    }

    /** The live runs as a scan yields them, and the key order it followed. */
    method LiveRuns() returns (out: seq<(AgentId, CloudRun)>, ghost scan: seq<AgentId>)
      ensures Lists(scan, runs) && out == Tagged(runs, LiveIn(runs, scan))
      ensures forall p :: p in out <==> p.0 in runs && p.1 == runs[p.0] && runs[p.0].Live()
      ensures forall i, j :: 0 <= i < j < |out| ==> out[i].0 != out[j].0
    {
      out, scan := ScanLive();
      LiveInNoDup(runs, scan);
      TaggedMeaning(runs, LiveIn(runs, scan));
    }

    method ScanLive() returns (out: seq<(AgentId, CloudRun)>, ghost scan: seq<AgentId>)
      ensures Lists(scan, runs) && out == Tagged(runs, LiveIn(runs, scan))
    {
      var keys := runs.Keys;
      out, scan := [], [];
      while keys != {}
        invariant keys <= runs.Keys
        invariant NoDup(scan) && forall a :: a in scan <==> a in runs && a !in keys
        invariant out == Tagged(runs, LiveIn(runs, scan))
      {
        var a :| a in keys;
        keys := keys - {a};
        NextLive(runs, scan, a);
        scan := scan + [a];
        if !runs[a].status.Terminal() && runs[a].prUrl == "" {
          out := out + [(a, runs[a])];
        }
      }
    }

    // --- orders ----------------------------------------------------------------

    method FinishWithoutAgent(o: OrderId, raced: bool)
      modifies this`finished
      ensures View() == CloudProtocol.FinishWithoutAgent(old(View()), o, raced)
    {
      finished := finished + [Entry(None, o, StartupError, LaunchFailure(raced))];
    }

    method LaunchFailed(o: OrderId, retryable: bool, retryAfter: Option<real>, raced: bool)
      modifies this
      ensures View() == if Requeues(old(View()), o, StartupFailed(retryable, retryAfter))
                        then Requeue(old(View()), o, retryAfter)
                        else CloudProtocol.FinishWithoutAgent(old(View()), o, raced).(attempts := old(attempts) - {o})
    {
      var tried := (if o in attempts then attempts[o] else 0) + 1;
      attempts := attempts[o := tried];
      if retryable && tried < MAX_LAUNCH_ATTEMPTS {
        var delay := if retryAfter.Some? && retryAfter.value != 0.0 then retryAfter.value else cfg.retryDelay;
        blockedUntil := blockedUntil[o := clock + delay];
        return;
      }
      FinishWithoutAgent(o, raced);
      attempts := attempts - {o};
    }

    method HandleOrder(signal: Signal, env: LaunchEnv) returns (launched: bool)
      modifies this
      ensures (View(), launched) == CloudProtocol.HandleOrder(old(View()), signal, env)
    {
      if signal.Unusable? { return false; }
      var o := signal.order;
      var agent := RunForOrder(o);
      if agent.Some? { return false; }
      var done := SettledOrder(o);
      if done.Some? { return false; }
      clock := clock + env.waited;
      var until := if o in blockedUntil then blockedUntil[o] else 0.0;
      if until > clock { return false; }

      ghost var retry := if Requeues(View(), o, env.outcome) then Some(DelayOf(cfg, env.outcome.retryAfter)) else None;
      launches := launches + [Launch(o, clock, clock + env.took, retry)];
      clock := clock + env.took;
      if env.rejectedMeanwhile {
        finished := finished + [Entry(None, o, Cancelled, FrontEnd)];
      }
      launched := AfterLaunch(o, env);
    }

    /** The part of handling an order that follows the runtime's answer. */
    method AfterLaunch(o: OrderId, env: LaunchEnv) returns (launched: bool)
      modifies this
      ensures (View(), launched) == CloudProtocol.AfterLaunch(old(View()), o, env)
    {
      match env.outcome {
        case StartupFailed(retryable, retryAfter) =>
          LaunchFailed(o, retryable, retryAfter, env.rejectedMeanwhile);
          return false;
        case Failed =>
          FinishWithoutAgent(o, env.rejectedMeanwhile);
          return false;
        case Minted =>
          var a := nextAgent;
          nextAgent := nextAgent + 1;
          var done := SettledOrder(o);
          if done.Some? {
            cancelRequested := cancelRequested + {a};
            return false;
          }
          runs := runs[a := CloudRun(o, Running, "")];
          attempts := attempts - {o};
          blockedUntil := blockedUntil - {o};
          return true;
      }
    }

    method PollOrders(signals: seq<Signal>, envs: nat -> LaunchEnv) returns (launched: nat)
      modifies this
      ensures (View(), launched) == CloudProtocol.PollOrders(old(View()), signals, envs)
    {
      pending := pending + signals;
      var queue := pending;
      var still;
      launched, still := DrainOrders(queue, seq(|queue|, i requires 0 <= i < |queue| => envs(i)));
      pending := still;
    }

    /** Handle one queued order and say whether it stays queued. */
    method TakeOrder(signal: Signal, env: LaunchEnv) returns (handled: bool, keep: seq<Signal>)
      modifies this
      ensures (View(), handled, keep) == CloudProtocol.TakeOrder(old(View()), signal, env)
    {
      handled := HandleOrder(signal, env);
      keep := if !handled && StaysPending(attempts, signal) then [signal] else [];
    }

    /** Handle the queued orders one after another, keeping those that may be tried again. */
    method DrainOrders(queue: seq<Signal>, envs: seq<LaunchEnv>) returns (launched: nat, still: seq<Signal>)
      requires |envs| == |queue|
      modifies this
      ensures (View(), launched, still) == CloudProtocol.DrainOrders(old(View()), queue, envs)
    {
      launched, still := 0, [];
      for k := 0 to |queue|
        invariant (View(), launched, still) == CloudProtocol.DrainOrders(old(View()), queue[..k], envs[..k])
      {
        assert queue[..k + 1][..k] == queue[..k] && envs[..k + 1][..k] == envs[..k];
        var handled, keep := TakeOrder(queue[k], envs[k]);
        if handled { launched := launched + 1; }
        still := still + keep;
      }
      assert queue[..|queue|] == queue && envs[..|queue|] == envs;
    }

    // --- runs ------------------------------------------------------------------

    method HonorReject(a: AgentId, cancelled: bool) returns (changed: bool)
      requires a in runs
      modifies this
      ensures (View(), changed) == CloudProtocol.HonorReject(old(View()), a, cancelled)
    {
      cancelRequested := cancelRequested + {a};
      if !cancelled { return false; }
      runs := runs[a := runs[a].(status := Cancelled)];
      return true;
    }

    method ApplyState(a: AgentId, run: CloudRun, answer: PollAnswer) returns (changed: bool)
      requires a in runs && runs[a] == run && answer.Answer?
      modifies this
      ensures (View(), changed) == CloudProtocol.ApplyState(old(View()), a, answer)
    {
      var status := answer.status;
      if run.prUrl != "" { return false; }
      if answer.prUrl != "" {
        runs := runs[a := runs[a].(prUrl := answer.prUrl)];
        cancelRequested := cancelRequested + {a};
        return true;
      }
      if status == Finished { status := Error; }
      if status != run.status {
        runs := runs[a := runs[a].(status := status)];
      }
      assert runs == old(runs)[a := run.(status := status)];
      if status != Error && status != Cancelled && status != StartupError { return false; }
      if status == Error {
        cancelRequested := cancelRequested + {a};
      } else {
        providerEnded := providerEnded + {a};
      }
      finished := finished + [Entry(Some(a), run.order, status, RunPoll)];
      return true;
    }

    method VisitRun(a: AgentId, run: CloudRun, byOrder: map<OrderId, Entry>, ghost already: seq<Entry>, env: RunEnv)
      returns (changed: bool)
      requires a in runs && runs[a] == run
      requires forall o :: o in byOrder <==> Settled(already, o).Some?
      requires forall o :: o in byOrder ==> byOrder[o] == Settled(already, o).value
      modifies this
      ensures (View(), changed) == CloudProtocol.VisitRun(old(View()), a, already, env)
      ensures runs.Keys == old(runs).Keys && forall b :: b in runs && b != a ==> runs[b] == old(runs)[b]
    {
      if run.order in byOrder && byOrder[run.order].status == Cancelled {
        changed := HonorReject(a, env.cancels(a));
        return;
      }
      var answer := env.answers(a);
      if answer.Unreadable? { return false; }
      changed := ApplyState(a, run, answer);
    }

    method PollRuns(force: bool, waited: Duration, env: RunEnv) returns (settled: nat, ghost scan: seq<AgentId>)
      modifies this
      ensures if force || old(clock) + waited >= old(nextRunPoll) then Lists(scan, old(runs)) else scan == []
      ensures (View(), settled) == CloudProtocol.PollRuns(old(View()), force, waited, scan, env)
    {
      ghost var s := View();
      settled, scan := 0, [];
      var due := SweepIsDue(force, waited);
      if due {
        settled, scan := SweepLive(env);
        assert (View(), settled) == CloudProtocol.PollRuns(s, force, waited, scan, env);
      }
    }

    method SweepIsDue(force: bool, waited: Duration) returns (due: bool)
      modifies this
      ensures due == (force || old(clock) + waited >= old(nextRunPoll))
      ensures var s := Tick(old(View()), waited);
              View() == if due then s.(nextRunPoll := s.clock + s.cfg.runPollInterval) else s
    {
      clock := clock + waited;
      due := force || clock >= nextRunPoll;
      if due {
        nextRunPoll := clock + cfg.runPollInterval;
      }
    }

    /** One sweep over the runs that are live now. */
    method SweepLive(env: RunEnv) returns (settled: nat, ghost scan: seq<AgentId>)
      modifies this
      ensures Lists(scan, old(runs))
      ensures (View(), settled) == CloudProtocol.Sweep(old(View()), LiveIn(old(runs), scan), old(finished), env)
    {
      var byOrder := FinishedByOrder();
      var live;
      live, scan := LiveRuns();
      LiveInNoDup(runs, scan);
      settled := Sweep(live, byOrder, LiveIn(runs, scan), finished, env);
    }

    /** Visit the first of the runs that are left, towards a total of `goal`. */
    method VisitNext(a: AgentId, run: CloudRun, byOrder: map<OrderId, Entry>, before: nat,
                     ghost live: seq<(AgentId, CloudRun)>, ghost left: seq<AgentId>,
                     ghost already: seq<Entry>, env: RunEnv, ghost goal: (State, nat))
      returns (settled: nat)
      requires NoDup(left) && left != [] && (forall b :: b in left ==> b in runs)
      requires live == Tagged(runs, left) && live[0] == (a, run)
      requires forall o :: o in byOrder <==> Settled(already, o).Some?
      requires forall o :: o in byOrder ==> byOrder[o] == Settled(already, o).value
      requires goal == Plus(before, CloudProtocol.Sweep(View(), left, already, env))
      modifies this
      ensures forall b :: b in left[1..] ==> b in runs
      ensures live[1..] == Tagged(runs, left[1..])
      ensures goal == Plus(settled, CloudProtocol.Sweep(View(), left[1..], already, env))
    {
      ghost var s := View();
      VisitEffect(s, a, already, env);
      var changed := VisitRun(a, run, byOrder, already, env);
      settled := if changed then before + 1 else before;
      forall j | 0 <= j < |left[1..]| ensures live[1..][j] == (left[1..][j], runs[left[1..][j]]) {
        assert left[j + 1] != left[0] && live[j + 1] == (left[j + 1], s.runs[left[j + 1]]);
      }
    }

    /** Visit the live runs one after another. */
    method Sweep(live: seq<(AgentId, CloudRun)>, byOrder: map<OrderId, Entry>,
                 ghost agents: seq<AgentId>, ghost already: seq<Entry>, env: RunEnv)
      returns (settled: nat)
      requires NoDup(agents) && (forall a :: a in agents ==> a in runs) && live == Tagged(runs, agents)
      requires forall o :: o in byOrder <==> Settled(already, o).Some?
      requires forall o :: o in byOrder ==> byOrder[o] == Settled(already, o).value
      modifies this
      ensures (View(), settled) == CloudProtocol.Sweep(old(View()), agents, already, env)
    {
      settled := 0;
      ghost var goal := CloudProtocol.Sweep(View(), agents, already, env);
      assert agents[0..] == agents && live[0..] == live;
      for k := 0 to |live|
        invariant forall a :: a in agents[k..] ==> a in runs
        invariant live[k..] == Tagged(runs, agents[k..])
        invariant goal == Plus(settled, CloudProtocol.Sweep(View(), agents[k..], already, env))
      {
        LaterAgents(agents, k);
        assert live[k..][0] == live[k] && live[k..][1..] == live[k + 1..];
        settled := VisitNext(live[k].0, live[k].1, byOrder, settled, live[k..], agents[k..], already, env, goal);
      }
    }

    // --- operator --------------------------------------------------------------

    method Cancel(a: AgentId, cancelled: bool) returns (ok: bool)
      modifies this
      ensures a !in old(runs) ==> !ok && View() == old(View())
      ensures a in old(runs) ==> (View(), ok) == CancelRun(old(View()), a, cancelled)
    {
      if a !in runs { return false; }
      cancelRequested := cancelRequested + {a};
      if !cancelled { return false; }
      var run := runs[a];
      runs := runs[a := run.(status := Cancelled)];
      finished := finished + [Entry(Some(a), run.order, Cancelled, Operator)];
      return true;
    }

    method Reject(o: OrderId, cancelled: bool) returns (ok: bool)
      requires OneRunPerOrder(runs)
      modifies this
      ensures (View(), ok) == CloudProtocol.Reject(old(View()), o, cancelled)
    {
      if o == "" { return false; }
      var done := SettledOrder(o);
      if done.Some? { return false; }
      var agent := RunForOrder(o);
      if agent.Some? {
        ok := Cancel(agent.value, cancelled);
        return;
      }
      finished := finished + [Entry(None, o, Cancelled, Operator)];
      return true;
    }
  }

  function Plus(n: nat, r: (State, nat)): (State, nat) {
    (r.0, n + r.1)
  }

  lemma LaterAgents(agents: seq<AgentId>, k: nat)
    requires NoDup(agents) && k < |agents|
    ensures NoDup(agents[k..]) && agents[k..][0] == agents[k] && agents[k..][1..] == agents[k + 1..]
  {
    forall i, j | 0 <= i < j < |agents[k..]| ensures agents[k..][i] != agents[k..][j] {
      assert agents[k + i] != agents[k + j];
    }
  }

  lemma NextLive(runs: map<AgentId, CloudRun>, scan: seq<AgentId>, a: AgentId)
    requires a in runs
    ensures Tagged(runs, LiveIn(runs, scan + [a]))
         == Tagged(runs, LiveIn(runs, scan)) + if runs[a].Live() then [(a, runs[a])] else []
  {
    LiveInAppend(runs, scan, a);
  }

  lemma {:induction false} LiveInAppend(runs: map<AgentId, CloudRun>, scan: seq<AgentId>, a: AgentId)
    ensures LiveIn(runs, scan + [a]) == LiveIn(runs, scan) + if a in runs && runs[a].Live() then [a] else []
    decreases |scan|
  {
    if scan == [] {
      assert scan + [a] == [a];
    } else {
      assert (scan + [a])[1..] == scan[1..] + [a];
      LiveInAppend(runs, scan[1..], a);
    }
  }
}
