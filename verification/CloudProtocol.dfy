/**
  The CloudFactory order/run protocol as a function of its state and of what the
  outside world answers.

  Every launch, poll and cancel answer of the agent runtime, every clock reading and
  every front-end write is an argument, so one definition covers every behaviour of
  the environment. `CloudManager.dfy` holds the manager itself, whose methods are
  proved to compute exactly these functions.
 */
module CloudProtocol {
  import opened Wrappers

  type OrderId = string
  /** Agent ids are minted by the provider and never repeat; they are numbered in minting order. */
  type AgentId = nat
  type Duration = d: real | d >= 0.0

  const FINISHED_WINDOW: nat := 200
  const MAX_LAUNCH_ATTEMPTS: nat := 3

  datatype Status = Queued | Running | Finished | Error | Cancelled | StartupError {
    predicate Terminal() {
      Finished? || Error? || Cancelled? || StartupError?
    }
  }

  /** A CLOUDRUN hash. */
  datatype CloudRun = CloudRun(order: OrderId, status: Status, prUrl: string) {
    /** Still on a provider VM: not failed, not cancelled, not handed off. */
    predicate Live() {
      !status.Terminal() && prUrl == ""
    }
  }

  /** Which code wrote a CLOUDFINISHED entry. `raced` records that the operator's
      rejection of the same order landed while the launch was in flight. */
  datatype Writer = LaunchFailure(raced: bool) | RunPoll | Operator | FrontEnd

  /** A CLOUDFINISHED entry; `agent` is absent when no agent exists. */
  datatype Entry = Entry(agent: Option<AgentId>, order: OrderId, status: Status, writer: Writer)

  /** A published CLOUDORDER signal, by whether it parses. */
  datatype Signal = Usable(order: OrderId) | Unusable

  datatype Outcome =
    | Minted
    | StartupFailed(retryable: bool, retryAfter: Option<real>)
    | Failed

  /** What happens around one attempt at an order: time passes before the clock is read,
      the launch takes time and has an outcome, and the front end may reject meanwhile. */
  datatype LaunchEnv = LaunchEnv(waited: Duration, took: Duration, outcome: Outcome, rejectedMeanwhile: bool)

  datatype PollAnswer = Unreadable | Answer(status: Status, prUrl: string)

  datatype RunEnv = RunEnv(answers: AgentId -> PollAnswer, cancels: AgentId -> bool)

  /** One runtime.launch call: when it began and ended, and the delay after which the
      order may be tried again when it was put back in the queue. */
  datatype Launch = Launch(order: OrderId, started: real, ended: real, retry: Option<real>)

  datatype Config = Config(retryDelay: real, runPollInterval: real)

  /**
    `runs` and `finished` are the Redis registry and stream; `pending`, `attempts`,
    `blockedUntil` and `nextRunPoll` are the manager's memory. `clock` is the last
    clock reading and `nextAgent` the next id the provider mints. The last three are
    history: agents a cancel was requested for, agents the provider itself reported
    cancelled or never started, and the launches of this process generation.
   */
  datatype State = State(
    cfg: Config,
    runs: map<AgentId, CloudRun>,
    finished: seq<Entry>,
    pending: seq<Signal>,
    attempts: map<OrderId, nat>,
    blockedUntil: map<OrderId, real>,
    nextRunPoll: real,
    clock: real,
    nextAgent: AgentId,
    cancelRequested: set<AgentId>,
    providerEnded: set<AgentId>,
    launches: seq<Launch>)

  // --- queries ---------------------------------------------------------------

  predicate HasRun(runs: map<AgentId, CloudRun>, o: OrderId) {
    exists a :: a in runs && runs[a].order == o
  }

  /** Is entry i among the newest FINISHED_WINDOW of the stream? */
  predicate Recent(finished: seq<Entry>, i: int) {
    i + FINISHED_WINDOW >= |finished|
  }

  /** e stands at position i and no later entry is for o. */
  predicate IsNewest(finished: seq<Entry>, o: OrderId, e: Entry, i: int) {
    0 <= i < |finished| && finished[i] == e && forall j :: i < j < |finished| ==> finished[j].order != o
  }

  /** The newest entry for o at or after position lo. */
  function NewestFrom(finished: seq<Entry>, o: OrderId, lo: nat): Option<Entry> {
    if |finished| <= lo then None
    else if finished[|finished| - 1].order == o then Some(finished[|finished| - 1])
    else NewestFrom(finished[..|finished| - 1], o, lo)
  }

  /** The newest CLOUDFINISHED for an order that the manager can see. */
  function Settled(finished: seq<Entry>, o: OrderId): Option<Entry> {
    NewestFrom(finished, o, if |finished| <= FINISHED_WINDOW then 0 else |finished| - FINISHED_WINDOW)
  }

  lemma {:induction false} NewestFromMeaning(finished: seq<Entry>, o: OrderId, lo: nat)
    ensures var e := NewestFrom(finished, o, lo);
            if e.None? then forall i :: lo <= i < |finished| ==> finished[i].order != o
            else e.value.order == o && exists i :: lo <= i && IsNewest(finished, o, e.value, i)
    decreases |finished|
  {
    if lo < |finished| {
      var n := |finished| - 1;
      if finished[n].order == o {
        assert IsNewest(finished, o, finished[n], n);
      } else {
        NewestFromMeaning(finished[..n], o, lo);
        var r := NewestFrom(finished[..n], o, lo);
        if r.Some? {
          var i :| lo <= i && IsNewest(finished[..n], o, r.value, i);
          assert IsNewest(finished, o, r.value, i);
        }
      }
    }
  }

  /** What the manager sees is the newest entry for the order among the newest
      FINISHED_WINDOW, and nothing exactly when there is none among them. */
  lemma SettledMeaning(finished: seq<Entry>, o: OrderId)
    ensures var e := Settled(finished, o);
            if e.None? then forall i :: 0 <= i < |finished| && Recent(finished, i) ==> finished[i].order != o
            else e.value.order == o && exists i :: Recent(finished, i) && IsNewest(finished, o, e.value, i)
  {
    NewestFromMeaning(finished, o, if |finished| <= FINISHED_WINDOW then 0 else |finished| - FINISHED_WINDOW);
  }

  /** Failed launch attempts of an order the manager remembers. */
  function Tries(attempts: map<OrderId, nat>, o: OrderId): nat {
    if o in attempts then attempts[o] else 0
  }

  function DelayOf(cfg: Config, retryAfter: Option<real>): real {
    if retryAfter.Some? && retryAfter.value != 0.0 then retryAfter.value else cfg.retryDelay
  }

  // --- orders ----------------------------------------------------------------

  function Tick(s: State, d: Duration): State {
    s.(clock := s.clock + d)
  }

  function Append(s: State, e: Entry): State {
    s.(finished := s.finished + [e])
  }

  /** The front end's reject button: a cancelled entry, with the live agent if it knows one. */
  function FrontEndReject(s: State, o: OrderId, agent: Option<AgentId>): State {
    Append(s, Entry(agent, o, Cancelled, FrontEnd))
  }

  /** Whether a launch failure leaves the order in the queue. */
  predicate Requeues(s: State, o: OrderId, outcome: Outcome) {
    outcome.StartupFailed? && outcome.retryable && Tries(s.attempts, o) + 1 < MAX_LAUNCH_ATTEMPTS
  }

  /** The runtime.launch call itself: it is logged, takes time, and a rejection may land meanwhile. */
  function CallLaunch(s: State, o: OrderId, env: LaunchEnv): State {
    var ended := s.clock + env.took;
    var retry := if Requeues(s, o, env.outcome) then Some(DelayOf(s.cfg, env.outcome.retryAfter)) else None;
    var s1 := Tick(s, env.took).(launches := s.launches + [Launch(o, s.clock, ended, retry)]);
    if env.rejectedMeanwhile then FrontEndReject(s1, o, None) else s1
  }

  function Register(s: State, o: OrderId): State {
    s.(runs := s.runs[s.nextAgent := CloudRun(o, Running, "")],
       nextAgent := s.nextAgent + 1,
       attempts := s.attempts - {o},
       blockedUntil := s.blockedUntil - {o})
  }

  /** The order was rejected while the provider was minting the id: the agent is cancelled instead. */
  function DropMinted(s: State): State {
    s.(nextAgent := s.nextAgent + 1, cancelRequested := s.cancelRequested + {s.nextAgent})
  }

  function FinishWithoutAgent(s: State, o: OrderId, raced: bool): State {
    Append(s, Entry(None, o, StartupError, LaunchFailure(raced)))
  }

  function Requeue(s: State, o: OrderId, retryAfter: Option<real>): State {
    s.(attempts := s.attempts[o := Tries(s.attempts, o) + 1],
       blockedUntil := s.blockedUntil[o := s.clock + DelayOf(s.cfg, retryAfter)])
  }

  /** What the manager does with the outcome of a launch. */
  function AfterLaunch(s: State, o: OrderId, env: LaunchEnv): (State, bool) {
    match env.outcome
    case Minted =>
      if Settled(s.finished, o).Some? then (DropMinted(s), false) else (Register(s, o), true)
    case StartupFailed(_, retryAfter) =>
      if Requeues(s, o, env.outcome) then (Requeue(s, o, retryAfter), false)
      else (FinishWithoutAgent(s, o, env.rejectedMeanwhile).(attempts := s.attempts - {o}), false)
    case Failed =>
      (FinishWithoutAgent(s, o, env.rejectedMeanwhile), false)
  }

  /** One order signal: skipped, held back, or launched. Whether an agent now exists for it. */
  function HandleOrder(s: State, signal: Signal, env: LaunchEnv): (State, bool) {
    match signal
    case Unusable => (s, false)
    case Usable(o) =>
      if HasRun(s.runs, o) then (s, false)
      else if Settled(s.finished, o).Some? then (s, false)
      else
        var s1 := Tick(s, env.waited);
        var until := if o in s1.blockedUntil then s1.blockedUntil[o] else 0.0;
        if until > s1.clock then (s1, false)
        else AfterLaunch(CallLaunch(s1, o, env), o, env)
  }

  predicate StaysPending(attempts: map<OrderId, nat>, signal: Signal) {
    signal.Usable? && signal.order in attempts && attempts[signal.order] < MAX_LAUNCH_ATTEMPTS
  }

  /** One queued order: the new state, whether it launched, and what stays queued of it. */
  function TakeOrder(s: State, signal: Signal, env: LaunchEnv): (State, bool, seq<Signal>) {
    var (s1, launched) := HandleOrder(s, signal, env);
    (s1, launched, if !launched && StaysPending(s1.attempts, signal) then [signal] else [])
  }

  /** Work through the queue once: the new state, how many launched, and what stays queued. */
  function DrainOrders(s: State, queue: seq<Signal>, envs: seq<LaunchEnv>): (r: (State, nat, seq<Signal>))
    requires |envs| == |queue|
    decreases |queue|
  {
    if queue == [] then (s, 0, [])
    else
      var n := |queue| - 1;
      var (s1, launches, still) := DrainOrders(s, queue[..n], envs[..n]);
      var (s2, launched, keep) := TakeOrder(s1, queue[n], envs[n]);
      (s2, launches + (if launched then 1 else 0), still + keep)
  }

  function PollOrders(s: State, signals: seq<Signal>, envs: nat -> LaunchEnv): (State, nat) {
    var queue := s.pending + signals;
    var (s1, launched, still) := DrainOrders(s.(pending := queue), queue, seq(|queue|, i requires 0 <= i < |queue| => envs(i)));
    (s1.(pending := still), launched)
  }

  // --- runs ------------------------------------------------------------------

  function RequestCancel(s: State, a: AgentId): State {
    s.(cancelRequested := s.cancelRequested + {a})
  }

  function SetStatus(s: State, a: AgentId, status: Status): State
    requires a in s.runs
  {
    s.(runs := s.runs[a := s.runs[a].(status := status)])
  }

  function HonorReject(s: State, a: AgentId, cancelled: bool): (State, bool)
    requires a in s.runs
  {
    var s1 := RequestCancel(s, a);
    if cancelled then (SetStatus(s1, a, Cancelled), true) else (s1, false)
  }

  /** First PR URL: store it, cancel the VM, publish nothing. */
  function HandOff(s: State, a: AgentId, prUrl: string): State
    requires a in s.runs
  {
    RequestCancel(s.(runs := s.runs[a := s.runs[a].(prUrl := prUrl)]), a)
  }

  /** A run reached a terminal status of its own: record it, cancel a failed VM, publish. */
  function Settle(s: State, a: AgentId, status: Status): State
    requires a in s.runs
  {
    var s1 := SetStatus(s, a, status);
    var s2 := if status.Error? then RequestCancel(s1, a) else s1.(providerEnded := s1.providerEnded + {a});
    Append(s2, Entry(Some(a), s.runs[a].order, status, RunPoll))
  }

  /** A success without a PR is a failed run. */
  function Normalised(status: Status): Status {
    if status.Finished? then Error else status
  }

  function ApplyState(s: State, a: AgentId, answer: PollAnswer): (State, bool)
    requires a in s.runs && answer.Answer?
  {
    var status := Normalised(answer.status);
    if s.runs[a].prUrl != "" then (s, false)
    else if answer.prUrl != "" then (HandOff(s, a, answer.prUrl), true)
    else if status.Terminal() then (Settle(s, a, status), true)
    else (SetStatus(s, a, status), false)
  }

  /** One live run of the sweep; `already` is the stream as read before the sweep began. */
  function VisitRun(s: State, a: AgentId, already: seq<Entry>, env: RunEnv): (State, bool)
    requires a in s.runs
  {
    var done := Settled(already, s.runs[a].order);
    if done.Some? && done.value.status.Cancelled? then HonorReject(s, a, env.cancels(a))
    else if env.answers(a).Unreadable? then (s, false)
    else ApplyState(s, a, env.answers(a))
  }

  /** The agents of `scan` that were live when the sweep began, in scan order. */
  function LiveIn(runs: map<AgentId, CloudRun>, scan: seq<AgentId>): (live: seq<AgentId>)
    ensures forall a :: a in live <==> a in scan && a in runs && runs[a].Live()
    ensures |live| <= |scan|
  {
    if scan == [] then []
    else (if scan[0] in runs && runs[scan[0]].Live() then [scan[0]] else []) + LiveIn(runs, scan[1..])
  }

  /** Visit the agents one after another; how many handed off or failed. */
  function Sweep(s: State, live: seq<AgentId>, already: seq<Entry>, env: RunEnv): (r: (State, nat))
    requires forall a :: a in live ==> a in s.runs
    ensures r.0.runs.Keys == s.runs.Keys
    decreases |live|
  {
    if live == [] then (s, 0)
    else
      var (s1, changed) := VisitRun(s, live[0], already, env);
      var (s2, n) := Sweep(s1, live[1..], already, env);
      (s2, (if changed then 1 else 0) + n)
  }

  function PollRuns(s: State, force: bool, waited: Duration, scan: seq<AgentId>, env: RunEnv): (State, nat) {
    var s1 := Tick(s, waited);
    if !force && s1.clock < s1.nextRunPoll then (s1, 0)
    else
      var s2 := s1.(nextRunPoll := s1.clock + s1.cfg.runPollInterval);
      Sweep(s2, LiveIn(s2.runs, scan), s2.finished, env)
  }

  /** The poll is due. */
  predicate IsDue(s: State, force: bool, waited: Duration) {
    force || s.clock + waited >= s.nextRunPoll
  }

  /** The state in which a due poll begins its sweep. */
  function Begun(s: State, waited: Duration): State {
    Tick(s, waited).(nextRunPoll := s.clock + waited + s.cfg.runPollInterval)
  }

  lemma PollIsSweep(s: State, force: bool, waited: Duration, scan: seq<AgentId>, env: RunEnv)
    ensures PollRuns(s, force, waited, scan, env) ==
              if IsDue(s, force, waited) then Sweep(Begun(s, waited), LiveIn(s.runs, scan), s.finished, env)
              else (Tick(s, waited), 0)
  {
  }

  // --- operator --------------------------------------------------------------

  function CancelRun(s: State, a: AgentId, cancelled: bool): (State, bool)
    requires a in s.runs
  {
    var s1 := RequestCancel(s, a);
    if cancelled
    then (Append(SetStatus(s1, a, Cancelled), Entry(Some(a), s.runs[a].order, Cancelled, Operator)), true)
    else (s1, false)
  }

  /** Refuse an order through the manager. */
  ghost function Reject(s: State, o: OrderId, cancelled: bool): (State, bool) {
    if o == "" || Settled(s.finished, o).Some? then (s, false)
    else if HasRun(s.runs, o) then
      var a :| a in s.runs && s.runs[a].order == o;
      CancelRun(s, a, cancelled)
    else (Append(s, Entry(None, o, Cancelled, Operator)), true)
  }

  // --- runs of the whole system ------------------------------------------------

  datatype Event =
    | OrderPoll(signals: seq<Signal>, envs: nat -> LaunchEnv)
    | RunSweep(force: bool, waited: Duration, scan: seq<AgentId>, env: RunEnv)
    | OperatorReject(order: OrderId, cancelled: bool)
    | ButtonReject(order: OrderId, agent: Option<AgentId>)
    | Restart
    | Pass(waited: Duration)

  /** A restart wipes the manager's memory and begins a new generation of launches. */
  function Restarted(s: State): State {
    s.(pending := [], attempts := map[], blockedUntil := map[], nextRunPoll := 0.0, launches := [])
  }

  ghost function Apply(s: State, e: Event): State {
    match e
    case OrderPoll(signals, envs) => PollOrders(s, signals, envs).0
    case RunSweep(force, waited, scan, env) => PollRuns(s, force, waited, scan, env).0
    case OperatorReject(o, cancelled) => Reject(s, o, cancelled).0
    case ButtonReject(o, agent) => FrontEndReject(s, o, agent)
    case Restart => Restarted(s)
    case Pass(d) => Tick(s, d)
  }

  /** A key scan of the registry yields each key at most once. */
  ghost predicate WellFormed(e: Event) {
    e.RunSweep? ==> NoDup(e.scan)
  }

  function Init(cfg: Config, clock: real): State {
    State(cfg, map[], [], [], map[], map[], 0.0, clock, 0, {}, {}, [])
  }

  /** The state after a whole history of events. */
  ghost function After(s: State, events: seq<Event>): State
    decreases |events|
  {
    if events == [] then s else After(Apply(s, events[0]), events[1..])
  }
}
