/**
  What a sweep of the live runs makes of each of them, what it returns, and what an operator's
  refusal does.
 */
module CloudSweeps {
  import opened Wrappers
  import opened CloudProtocol
  import opened CloudInvariants
  import opened CloudTheorems

  /** The entries of one order, oldest first. */
  function EntriesOf(fin: seq<Entry>, o: OrderId): seq<Entry> {
    if fin == [] then []
    else EntriesOf(fin[..|fin| - 1], o) + if fin[|fin| - 1].order == o then [fin[|fin| - 1]] else []
  }

  lemma EntriesAppend(fin: seq<Entry>, e: Entry, o: OrderId)
    ensures EntriesOf(fin + [e], o) == EntriesOf(fin, o) + if e.order == o then [e] else []
  {
    assert (fin + [e])[..|fin|] == fin;
  }

  // --- one run -----------------------------------------------------------------------------

  /** Run a, its order's entries and what was asked of its agent are the same in both. */
  ghost predicate Alone(s: State, t: State, a: AgentId)
    requires a in s.runs
  {
    && a in t.runs && t.runs[a] == s.runs[a]
    && EntriesOf(t.finished, s.runs[a].order) == EntriesOf(s.finished, s.runs[a].order)
    && (a in t.cancelRequested <==> a in s.cancelRequested)
    && (a in t.providerEnded <==> a in s.providerEnded)
  }

  /** What a visit makes of a live run. A refused one is cancelled, and recorded as that only if the
      cancel went through. Otherwise the answer counts: a PR URL is stored and the agent cancelled
      without a word on the stream; an end is recorded and published once, a success without a PR
      as an error; any other status is recorded; no answer changes nothing. */
  ghost predicate Visited(s: State, t: State, a: AgentId, refused: bool, answer: PollAnswer, cancels: bool)
    requires a in s.runs
  {
    var run := s.runs[a];
    var ends := !refused && answer.Answer? && answer.prUrl == "" && answer.status.Terminal();
    var failed := ends && (answer.status.Error? || answer.status.Finished?);
    && a in t.runs
    && t.runs[a] == (
         if refused then run.(status := if cancels then Cancelled else run.status)
         else if answer.Unreadable? then run
         else if answer.prUrl != "" then run.(prUrl := answer.prUrl)
         else if failed then run.(status := Error)
         else run.(status := answer.status))
    && EntriesOf(t.finished, run.order) == EntriesOf(s.finished, run.order)
         + (if ends then [Entry(Some(a), run.order, if failed then Error else answer.status, RunPoll)] else [])
    && (a in t.cancelRequested <==>
          a in s.cancelRequested || refused || (answer.Answer? && answer.prUrl != "") || failed)
    && (a in t.providerEnded <==> a in s.providerEnded || (ends && !failed))
  }

  ghost predicate Refused(already: seq<Entry>, o: OrderId) {
    Settled(already, o).Some? && Settled(already, o).value.status.Cancelled?
  }

  lemma VisitMeaning(s: State, a: AgentId, already: seq<Entry>, env: RunEnv)
    requires a in s.runs && s.runs[a].Live()
    ensures var (t, changed) := VisitRun(s, a, already, env);
            && Visited(s, t, a, Refused(already, s.runs[a].order), env.answers(a), env.cancels(a))
            && (changed <==> !t.runs[a].Live())
  {
    forall e { EntriesAppend(s.finished, e, s.runs[a].order); }
  }

  /** A visit touches its own run and agent, and writes at most one entry, for its own order. */
  lemma VisitTouches(s: State, b: AgentId, already: seq<Entry>, env: RunEnv)
    requires b in s.runs
    ensures var t := VisitRun(s, b, already, env).0;
            && b in t.runs && t.runs == s.runs[b := t.runs[b]]
            && t.cancelRequested <= s.cancelRequested + {b} && s.cancelRequested <= t.cancelRequested
            && t.providerEnded <= s.providerEnded + {b} && s.providerEnded <= t.providerEnded
            && (t.finished == s.finished
                || exists status :: t.finished == s.finished + [Entry(Some(b), s.runs[b].order, status, RunPoll)])
  {
  }

  lemma VisitLeavesAlone(s: State, b: AgentId, already: seq<Entry>, env: RunEnv, a: AgentId)
    requires a in s.runs && b in s.runs && a != b && OneRunPerOrder(s.runs)
    ensures Alone(s, VisitRun(s, b, already, env).0, a)
  {
    var t := VisitRun(s, b, already, env).0;
    VisitTouches(s, b, already, env);
    if t.finished != s.finished {
      var status :| t.finished == s.finished + [Entry(Some(b), s.runs[b].order, status, RunPoll)];
      EntriesAppend(s.finished, Entry(Some(b), s.runs[b].order, status, RunPoll), s.runs[a].order);
    }
  }

  // --- a sweep ------------------------------------------------------------------------------

  lemma {:induction false} SweepLeavesAlone(s: State, live: seq<AgentId>, already: seq<Entry>, env: RunEnv, a: AgentId)
    requires (forall b :: b in live ==> b in s.runs) && a in s.runs && a !in live && OneRunPerOrder(s.runs)
    ensures Alone(s, Sweep(s, live, already, env).0, a)
    decreases |live|
  {
    if live != [] {
      var s1 := VisitRun(s, live[0], already, env).0;
      VisitEffect(s, live[0], already, env);
      VisitLeavesAlone(s, live[0], already, env, a);
      SweepLeavesAlone(s1, live[1..], already, env, a);
    }
  }

  lemma FirstIsNotLater(live: seq<AgentId>)
    requires NoDup(live) && live != []
    ensures live[0] !in live[1..] && NoDup(live[1..])
  {
    forall i | 0 <= i < |live[1..]| ensures live[1..][i] != live[0] { assert live[1..][i] == live[i + 1]; }
    forall i, j | 0 <= i < j < |live[1..]| ensures live[1..][i] != live[1..][j] { assert live[i + 1] != live[j + 1]; }
  }

  lemma {:induction false} SweepVisits(s: State, live: seq<AgentId>, already: seq<Entry>, env: RunEnv, a: AgentId)
    requires NoDup(live) && OneRunPerOrder(s.runs) && forall b :: b in live ==> b in s.runs && s.runs[b].Live()
    requires a in live
    ensures Visited(s, Sweep(s, live, already, env).0, a, Refused(already, s.runs[a].order), env.answers(a), env.cancels(a))
    decreases |live|
  {
    var b := live[0];
    var s1 := VisitRun(s, b, already, env).0;
    FirstIsNotLater(live);
    VisitEffect(s, b, already, env);
    if a == b {
      VisitMeaning(s, a, already, env);
      SweepLeavesAlone(s1, live[1..], already, env, a);
    } else {
      VisitLeavesAlone(s, b, already, env, a);
      SweepVisits(s1, live[1..], already, env, a);
    }
  }

  /** The runs of a list that are no longer live. */
  ghost function Gone(live: seq<AgentId>, runs: Registry): set<AgentId> {
    set a | a in live && a in runs && !runs[a].Live()
  }

  lemma GoneFirst(b: AgentId, rest: seq<AgentId>, runs: Registry)
    requires b !in rest && b in runs
    ensures |Gone([b] + rest, runs)| == |Gone(rest, runs)| + if runs[b].Live() then 0 else 1
  {
    assert b !in Gone(rest, runs);
    assert Gone([b] + rest, runs) == Gone(rest, runs) + if runs[b].Live() then {} else {b};
  }

  lemma SweepUnfolds(s: State, live: seq<AgentId>, already: seq<Entry>, env: RunEnv)
    requires live != [] && forall b :: b in live ==> b in s.runs
    ensures var (s1, changed) := VisitRun(s, live[0], already, env);
            && (forall b :: b in live[1..] ==> b in s1.runs)
            && var (t, n) := Sweep(s1, live[1..], already, env);
            Sweep(s, live, already, env) == (t, n + if changed then 1 else 0)
  {
    VisitEffect(s, live[0], already, env);
  }

  lemma VisitChanges(s: State, b: AgentId, already: seq<Entry>, env: RunEnv)
    requires b in s.runs && s.runs[b].Live()
    ensures var (t, changed) := VisitRun(s, b, already, env); b in t.runs && (changed <==> !t.runs[b].Live())
  {
    VisitMeaning(s, b, already, env);
  }

  /** The rest of a sweep does not touch the run visited first. */
  lemma FirstIsSettled(s: State, live: seq<AgentId>, already: seq<Entry>, env: RunEnv)
    requires live != [] && NoDup(live) && OneRunPerOrder(s.runs) && forall b :: b in live ==> b in s.runs && s.runs[b].Live()
    ensures var s1 := VisitRun(s, live[0], already, env).0;
            && OneRunPerOrder(s1.runs) && (forall b :: b in live[1..] ==> b in s1.runs && s1.runs[b].Live())
            && live[0] in s1.runs && Alone(s1, Sweep(s1, live[1..], already, env).0, live[0])
  {
    FirstIsNotLater(live);
    VisitEffect(s, live[0], already, env);
    SweepLeavesAlone(VisitRun(s, live[0], already, env).0, live[1..], already, env, live[0]);
  }

  /** One visit, the rest of the sweep from there, and whether the first run left the live set. */
  lemma SweepNext(s: State, live: seq<AgentId>, already: seq<Entry>, env: RunEnv) returns (s1: State, left: nat)
    requires live != [] && NoDup(live) && OneRunPerOrder(s.runs) && forall b :: b in live ==> b in s.runs && s.runs[b].Live()
    ensures OneRunPerOrder(s1.runs) && forall b :: b in live[1..] ==> b in s1.runs && s1.runs[b].Live()
    ensures Sweep(s, live, already, env) == (Sweep(s1, live[1..], already, env).0, Sweep(s1, live[1..], already, env).1 + left)
    ensures live[0] in Sweep(s, live, already, env).0.runs
    ensures left == if Sweep(s, live, already, env).0.runs[live[0]].Live() then 0 else 1
  {
    s1 := VisitRun(s, live[0], already, env).0;
    left := if VisitRun(s, live[0], already, env).1 then 1 else 0;
    SweepUnfolds(s, live, already, env);
    VisitChanges(s, live[0], already, env);
    FirstIsSettled(s, live, already, env);
  }

  lemma {:induction false} SweepReturns(s: State, live: seq<AgentId>, already: seq<Entry>, env: RunEnv)
    requires NoDup(live) && OneRunPerOrder(s.runs) && forall b :: b in live ==> b in s.runs && s.runs[b].Live()
    ensures var (t, n) := Sweep(s, live, already, env); n == |Gone(live, t.runs)|
    decreases |live|
  {
    if live != [] {
      FirstIsNotLater(live);
      var s1, left := SweepNext(s, live, already, env);
      SweepReturns(s1, live[1..], already, env);
      GoneFirst(live[0], live[1..], Sweep(s, live, already, env).0.runs);
      assert live == [live[0]] + live[1..];
    }
  }

  /** For a live run the manager reads the stream as a refusal exactly when any entry of its order
      can be seen. */
  lemma RefusedIff(s: State, a: AgentId)
    requires RegistryInv(s.runs, s.finished) && a in s.runs && s.runs[a].Live()
    ensures Refused(s.finished, s.runs[a].order) <==> RecentFor(s.finished, s.runs[a].order)
  {
    SettledMeaning(s.finished, s.runs[a].order);
  }

  /** What a due poll makes of every run: a live one that the scan lists is visited, as refused if an
      entry of its order can be seen; every other one is left alone. */
  lemma PollVisits(s: State, force: bool, waited: Duration, scan: seq<AgentId>, env: RunEnv, a: AgentId)
    requires Inv(s) && NoDup(scan) && IsDue(s, force, waited) && a in s.runs
    ensures var t := PollRuns(s, force, waited, scan, env).0;
            if a in scan && s.runs[a].Live()
            then Visited(s, t, a, RecentFor(s.finished, s.runs[a].order), env.answers(a), env.cancels(a))
            else Alone(s, t, a)
  {
    var s1, live := Begun(s, waited), LiveIn(s.runs, scan);
    LiveInNoDup(s.runs, scan);
    PollIsSweep(s, force, waited, scan, env);
    if a in live {
      RefusedIff(s, a);
      SweepVisits(s1, live, s.finished, env, a);
    } else {
      SweepLeavesAlone(s1, live, s.finished, env, a);
    }
  }

  /** The runs that were live before and are not after. */
  ghost function LeftLive(before: Registry, after: Registry): set<AgentId> {
    set a | a in before && before[a].Live() && !(a in after && after[a].Live())
  }

  lemma SweepLeftLive(s: State, live: seq<AgentId>, already: seq<Entry>, env: RunEnv)
    requires NoDup(live) && OneRunPerOrder(s.runs) && forall b :: b in live ==> b in s.runs && s.runs[b].Live()
    ensures var t := Sweep(s, live, already, env).0; LeftLive(s.runs, t.runs) == Gone(live, t.runs)
  {
    var t := Sweep(s, live, already, env).0;
    forall a | a in LeftLive(s.runs, t.runs) ensures a in live {
      if a !in live { SweepLeavesAlone(s, live, already, env, a); }
    }
  }

  /** A poll returns how many runs it took out of the live set. */
  lemma PollReturns(s: State, force: bool, waited: Duration, scan: seq<AgentId>, env: RunEnv)
    requires Inv(s) && NoDup(scan)
    ensures var (t, n) := PollRuns(s, force, waited, scan, env); n == |LeftLive(s.runs, t.runs)|
  {
    PollIsSweep(s, force, waited, scan, env);
    if IsDue(s, force, waited) {
      LiveInNoDup(s.runs, scan);
      SweepReturns(Begun(s, waited), LiveIn(s.runs, scan), s.finished, env);
      SweepLeftLive(Begun(s, waited), LiveIn(s.runs, scan), s.finished, env);
    } else {
      assert LeftLive(s.runs, s.runs) == {};
    }
  }

  /** A sweep that is not forced does nothing until the interval after the last one is over. */
  lemma PollsAreApart(s: State, force: bool, waited: Duration, scan: seq<AgentId>, env: RunEnv,
                      later: Duration, scan': seq<AgentId>, env': RunEnv)
    requires IsDue(s, force, waited)
    ensures var t := PollRuns(s, force, waited, scan, env).0;
            && t.clock == s.clock + waited && t.nextRunPoll == t.clock + t.cfg.runPollInterval
            && (later < t.cfg.runPollInterval ==> PollRuns(t, false, later, scan', env') == (Tick(t, later), 0))
  {
    var t := PollRuns(s, force, waited, scan, env).0;
    PollIsSweep(s, force, waited, scan, env);
    SweepKeepsSchedule(Begun(s, waited), LiveIn(s.runs, scan), s.finished, env);
    PollIsSweep(t, false, later, scan', env');
  }

  lemma VisitKeepsSchedule(s: State, a: AgentId, already: seq<Entry>, env: RunEnv)
    requires a in s.runs
    ensures var t := VisitRun(s, a, already, env).0;
            t.clock == s.clock && t.nextRunPoll == s.nextRunPoll && t.cfg == s.cfg && t.runs.Keys == s.runs.Keys
  {
  }

  lemma {:induction false} SweepKeepsSchedule(s: State, live: seq<AgentId>, already: seq<Entry>, env: RunEnv)
    requires forall b :: b in live ==> b in s.runs
    ensures var t := Sweep(s, live, already, env).0;
            t.clock == s.clock && t.nextRunPoll == s.nextRunPoll && t.cfg == s.cfg
    decreases |live|
  {
    if live != [] {
      VisitKeepsSchedule(s, live[0], already, env);
      SweepKeepsSchedule(VisitRun(s, live[0], already, env).0, live[1..], already, env);
    }
  }

  lemma {:induction false} SweepWritesForRuns(s: State, live: seq<AgentId>, already: seq<Entry>, env: RunEnv)
    requires forall b :: b in live ==> b in s.runs
    ensures var t := Sweep(s, live, already, env).0;
            && s.finished <= t.finished
            && forall i :: |s.finished| <= i < |t.finished| ==> exists a :: a in live && s.runs[a].order == t.finished[i].order
    decreases |live|
  {
    if live != [] {
      var b := live[0];
      var s1 := VisitRun(s, b, already, env).0;
      var t := Sweep(s, live, already, env).0;
      VisitEffect(s, b, already, env);
      SweepWritesForRuns(s1, live[1..], already, env);
      forall i | |s.finished| <= i < |t.finished| ensures exists a :: a in live && s.runs[a].order == t.finished[i].order {
        if i < |s1.finished| {
          assert t.finished[i] == s1.finished[i] && b in live;
        } else {
          var a :| a in live[1..] && s1.runs[a].order == t.finished[i].order;
          assert a in live;
        }
      }
    }
  }

  /** A poll keeps every entry and writes only for orders of live runs that the scan lists. */
  lemma PollWritesForRuns(s: State, force: bool, waited: Duration, scan: seq<AgentId>, env: RunEnv)
    ensures var t := PollRuns(s, force, waited, scan, env).0;
            && s.finished <= t.finished
            && forall i :: |s.finished| <= i < |t.finished| ==>
                 exists a :: a in scan && a in s.runs && s.runs[a].Live() && s.runs[a].order == t.finished[i].order
  {
    var live := LiveIn(s.runs, scan);
    var t := PollRuns(s, force, waited, scan, env).0;
    PollIsSweep(s, force, waited, scan, env);
    SweepWritesForRuns(Begun(s, waited), live, s.finished, env);
    forall i | |s.finished| <= i < |t.finished|
      ensures exists a :: a in scan && a in s.runs && s.runs[a].Live() && s.runs[a].order == t.finished[i].order
    {
      var a :| a in live && s.runs[a].order == t.finished[i].order;
    }
  }

  /** The first PR URL a poll reads for a run is stored, and then the run stays as it is and nobody
      but the front end writes for its order, whatever happens short of the operator refusing it. */
  lemma HandedOffForGood(s: State, force: bool, waited: Duration, scan: seq<AgentId>, env: RunEnv, a: AgentId,
                         events: seq<Event>)
    requires Inv(s) && NoDup(scan) && IsDue(s, force, waited) && a in scan && a in s.runs && s.runs[a].Live()
    requires !RecentFor(s.finished, s.runs[a].order) && env.answers(a).Answer? && env.answers(a).prUrl != ""
    requires AllWellFormed(events) && NotRefused(events, s.runs[a].order)
    ensures var t1 := PollRuns(s, force, waited, scan, env).0;
            var t := After(t1, events);
            && a in t.runs && t.runs[a] == s.runs[a].(prUrl := env.answers(a).prUrl) && a in t1.cancelRequested
            && EntriesOf(t1.finished, s.runs[a].order) == EntriesOf(s.finished, s.runs[a].order)
            && KeepsHandedOff(t1, t, a)
  {
    var t1 := PollRuns(s, force, waited, scan, env).0;
    PollVisits(s, force, waited, scan, env, a);
    PollRunsKeeps(s, force, waited, scan, env);
    HandOffIsPermanent(t1, events, a);
  }

  // --- a refusal -----------------------------------------------------------------------------

  /** A refusal succeeds if and only if it names an order without a visible entry and the cancel of
      the order's run, if it has one, goes through. Then it writes one cancelled entry, which names
      the run if there is one, and the run is cancelled; otherwise it writes nothing. No other run
      is touched. */
  lemma RejectOutcome(s: State, o: OrderId, cancelled: bool)
    requires OneRunPerOrder(s.runs)
    ensures var (t, done) := Reject(s, o, cancelled);
            && (done <==> o != "" && !RecentFor(s.finished, o) && (HasRun(s.runs, o) ==> cancelled))
            && (!done ==> t.finished == s.finished && t.runs == s.runs)
            && (done && !HasRun(s.runs, o) ==>
                  t == s.(finished := s.finished + [Entry(None, o, Cancelled, Operator)]))
            && forall a :: a in s.runs && s.runs[a].order == o ==>
                 && (done ==> t.finished == s.finished + [Entry(Some(a), o, Cancelled, Operator)]
                              && t.runs == s.runs[a := s.runs[a].(status := Cancelled)])
                 && (t.cancelRequested == s.cancelRequested
                       + if o != "" && !RecentFor(s.finished, o) then {a} else {})
  {
    SettledMeaning(s.finished, o);
  }
}
