/**
  The execution engine with its two threads interleaved: the listener launches and kills, the
  reaper polls, publishes and reconciles, one access to shared state per step. Processes exit
  whenever they like, and the reaper's Redis calls may fail.
 */
module EngineRaces {
  import opened SupervisorEngine

  /** What the reaper keeps of a registry entry it listed. */
  datatype Entry = Entry(uid: Uid, m: Managed)

  /** Where the listener is. */
  datatype Listener =
    | Idle
    | Storing(uid: Uid, m: Managed)
    | Hashing(uid: Uid, m: Managed)
    | Reading(uid: Uid, endpoint: string)
    | Flagging(uid: Uid)
    | Popping(uid: Uid)
    | Deleting(uid: Uid)

  /** Where the reaper is: first through the listed entries, then scanning the hashes, reading
      the registry and going through the keys found. */
  datatype Reaper =
    | Resting
    | Visiting(todo: seq<Entry>)
    | Dropping(e: Entry, code: int, todo: seq<Entry>)
    | Looking(e: Entry, code: int, todo: seq<Entry>)
    | Publishing(e: Entry, code: int, todo: seq<Entry>)
    | Unhashing(e: Entry, todo: seq<Entry>)
    | Scanning(first: set<Uid>, found: set<Uid>)
    | Listing(found: set<Uid>)
    | Checking(keys: set<Uid>, held: set<Uid>)
    | Asking(uid: Uid, keys: set<Uid>, held: set<Uid>)
    | Discarding(uid: Uid, keys: set<Uid>, held: set<Uid>)

  /** `minted` holds every id ever drawn and `exited` the exit codes of the processes that ended. The
      rest is history: `launched` holds the ids stored in the registry, `unlisted` those whose hash a
      kill has deleted and `lost` those whose exit the reaper has given up. */
  datatype State = State(
    w: World, minted: set<Uid>, exited: map<Uid, int>, launched: set<Uid>, unlisted: set<Uid>, lost: set<Uid>,
    listener: Listener, reaper: Reaper)

  datatype Event =
    | LaunchNew(uid: Uid, m: Managed)
    | KillAsked(endpoint: string, uid: Uid)
    | ListenerStep
    | ProcessEnds(uid: Uid, code: int)
    | ReapStart(items: seq<Uid>)
    | ReaperStep(ok: bool)
    | ScanPage(keys: set<Uid>)
    | CheckKey(uid: Uid, ok: bool)
    | Answer(alive: bool)

  function Entries(nodes: map<Uid, Managed>, items: seq<Uid>): seq<Entry>
    requires forall u :: u in items ==> u in nodes
  {
    seq(|items|, i requires 0 <= i < |items| => Entry(items[i], nodes[items[i]]))
  }

  function Listen(s: State): State {
    match s.listener
    case Idle => s
    case Storing(uid, m) => s.(w := Stored(s.w, uid, m), launched := s.launched + {uid}, listener := Hashing(uid, m))
    case Hashing(uid, m) => s.(w := Hashed(s.w, uid, m), listener := Idle)
    case Reading(uid, endpoint) =>
      if uid !in s.w.hashes || !Matches(endpoint, s.w.hashes[uid]) then s.(listener := Idle)
      else s.(listener := Deleting(uid))
    case Flagging(uid) => s.(w := Flagged(s.w, uid), listener := Popping(uid))
    case Popping(uid) => s.(w := Popped(s.w, uid), listener := Deleting(uid))
    case Deleting(uid) => s.(w := Unhashed(s.w, uid), unlisted := s.unlisted + {uid}, listener := Idle)
  }

  /** A failing Redis call ends the work on the entry or key at hand, and a failing scan the pass. */
  function Reap(s: State, ok: bool): State {
    match s.reaper
    case Visiting(todo) =>
      if todo == [] then s.(reaper := Scanning(s.w.hashes.Keys, {}))
      else if todo[0].uid !in s.exited then s.(reaper := Visiting(todo[1..]))
      else s.(reaper := Dropping(todo[0], s.exited[todo[0].uid], todo[1..]))
    case Dropping(e, code, todo) => s.(w := Popped(s.w, e.uid), reaper := Looking(e, code, todo))
    case Looking(e, code, todo) =>
      if ok && e.uid in s.w.hashes then s.(reaper := Publishing(e, code, todo))
      else s.(lost := s.lost + {e.uid}, reaper := Visiting(todo))
    case Publishing(e, code, todo) =>
      if ok then s.(w := Published(s.w, Exit(e.uid, e.m.endpoint, code)), reaper := Unhashing(e, todo))
      else s.(lost := s.lost + {e.uid}, reaper := Visiting(todo))
    case Unhashing(e, todo) => s.(w := if ok then Unhashed(s.w, e.uid) else s.w, reaper := Visiting(todo))
    case Scanning(first, found) =>
      if !ok then s.(reaper := Resting)
      else if forall u :: u in first && u in s.w.hashes ==> u in found then s.(reaper := Listing(found))
      else s
    case Listing(found) => s.(reaper := Checking(found, s.w.nodes.Keys))
    case Checking(keys, held) => if keys == {} then s.(reaper := Resting) else s
    case Discarding(uid, keys, held) =>
      s.(w := if ok then Unhashed(s.w, uid) else s.w, reaper := Checking(keys, held))
    case Resting => s
    case Asking(uid, keys, held) => s
  }

  ghost function Step(s: State, e: Event): State {
    match e
    case LaunchNew(uid, m) =>
      if s.listener != Idle || uid in s.minted then s
      else s.(minted := s.minted + {uid}, listener := Storing(uid, m))
    case KillAsked(endpoint, uid) =>
      if s.listener != Idle || uid == "" then s
      else if uid !in s.w.nodes then s.(listener := Reading(uid, endpoint))
      else if Matches(endpoint, s.w.nodes[uid]) then s.(listener := Flagging(uid))
      else s
    case ListenerStep => Listen(s)
    case ProcessEnds(uid, code) =>
      if uid in s.minted && uid !in s.exited then s.(exited := s.exited[uid := code]) else s
    case ReapStart(items) =>
      if s.reaper == Resting && Lists(items, s.w.nodes.Keys) then s.(reaper := Visiting(Entries(s.w.nodes, items))) else s
    case ReaperStep(ok) => Reap(s, ok)
    case ScanPage(keys) =>
      if s.reaper.Scanning? && keys <= s.w.hashes.Keys then s.(reaper := s.reaper.(found := s.reaper.found + keys)) else s
    case CheckKey(uid, ok) =>
      if !s.reaper.Checking? || uid !in s.reaper.keys then s
      else
        var rest := s.reaper.keys - {uid};
        s.(reaper := if ok && uid in s.w.hashes && uid !in s.reaper.held then Asking(uid, rest, s.reaper.held)
                     else Checking(rest, s.reaper.held))
    case Answer(alive) =>
      if !s.reaper.Asking? then s
      else if alive then s.(reaper := Checking(s.reaper.keys, s.reaper.held))
      else s.(reaper := Discarding(s.reaper.uid, s.reaper.keys, s.reaper.held))
  }

  ghost function After(s: State, es: seq<Event>): State {
    if es == [] then s else Step(After(s, es[..|es| - 1]), es[|es| - 1])
  }

  // --- undisturbed steps are the whole operations ------------------------------------

  lemma LaunchIsItsSteps(s: State, uid: Uid, m: Managed)
    requires s.listener == Idle && uid !in s.minted
    ensures Listen(Listen(Step(s, LaunchNew(uid, m))))
         == s.(w := Hashed(Stored(s.w, uid, m), uid, m), minted := s.minted + {uid}, launched := s.launched + {uid})
  {
  }

  /** A listener with nothing left to do stays idle, so the longest way to kill covers them all. */
  lemma KillIsItsSteps(s: State, endpoint: string, uid: Uid)
    requires s.listener == Idle
    ensures var (w, r) := AfterKill(s.w, endpoint, uid);
            Listen(Listen(Listen(Step(s, KillAsked(endpoint, uid)))))
            == s.(w := w, unlisted := s.unlisted + if r.Killed? || r.Cleared? then {uid} else {})
  {
  }

  function ReapSteps(s: State, n: nat): State
    decreases n
  {
    if n == 0 then s else ReapSteps(Reap(s, true), n - 1)
  }

  lemma ReapEntryIsItsSteps(s: State, e: Entry, todo: seq<Entry>)
    requires s.reaper == Visiting([e] + todo) && e.uid in s.w.nodes && s.w.nodes[e.uid] == e.m
    ensures var n := if e.uid !in s.exited then 1 else if e.uid !in s.w.hashes then 3 else 5;
            ReapSteps(s, n) == s.(w := ReapOne(s.w, e.uid, s.exited), reaper := Visiting(todo),
                                  lost := s.lost + if n == 3 then {e.uid} else {})
  {
    var s1 := Reap(s, true);
    assert ([e] + todo)[1..] == todo;
    if e.uid in s.exited {
      var s3 := Reap(Reap(s1, true), true);
      assert ReapSteps(s, 3) == ReapSteps(s1, 2) == ReapSteps(Reap(s1, true), 1) == ReapSteps(s3, 0);
      assert ReapSteps(s, 5) == ReapSteps(s1, 4) == ReapSteps(Reap(s1, true), 3) == ReapSteps(s3, 2);
      assert ReapSteps(s3, 2) == ReapSteps(Reap(s3, true), 1) == ReapSteps(Reap(Reap(s3, true), true), 0);
    } else {
      assert ReapSteps(s, 1) == ReapSteps(s1, 0);
    }
  }

  /** An undisturbed scan finds every hash, and the registry is listed as it is then. */
  lemma ScanIsItsSteps(s: State, first: set<Uid>)
    requires s.reaper == Scanning(first, {})
    ensures Reap(Reap(Step(s, ScanPage(s.w.hashes.Keys)), true), true) ==
              s.(reaper := Checking(s.w.hashes.Keys, s.w.nodes.Keys))
  {
    assert {} + s.w.hashes.Keys == s.w.hashes.Keys;
  }

  /** Undisturbed steps on one key are one turn of reconciling: the hash goes exactly when it is
      neither held nor reported alive. */
  lemma KeyIsItsSteps(s: State, uid: Uid, alive: bool)
    requires s.reaper.Checking? && uid in s.reaper.keys
    ensures var keys, held := s.reaper.keys, s.reaper.held;
            Reap(Step(Step(s, CheckKey(uid, true)), Answer(alive)), true) ==
              s.(w := if uid in held || alive then s.w else Unhashed(s.w, uid),
                 reaper := if keys == {uid} && (uid in held || alive || uid !in s.w.hashes) then Resting
                           else Checking(keys - {uid}, held))
  {
    if uid !in s.w.hashes { assert s.w.hashes - {uid} == s.w.hashes; }
    assert s.reaper.keys == {uid} <==> s.reaper.keys - {uid} == {};
  }

  // --- what every run keeps --------------------------------------------------------

  /** The entries the reaper has still to deal with, the one at hand first. */
  function Ahead(r: Reaper): seq<Entry> {
    match r
    case Visiting(todo) => todo
    case Dropping(e, _, todo) => [e] + todo
    case Looking(e, _, todo) => [e] + todo
    case Publishing(e, _, todo) => [e] + todo
    case Unhashing(_, todo) => todo
    case _ => []
  }

  /** The entry at hand, once it is popped. */
  function AtHand(r: Reaper): set<Uid> {
    if r.Looking? || r.Publishing? || r.Unhashing? then {r.e.uid} else {}
  }

  /** The keys whose hashes the reaper may still drop. */
  function Suspects(r: Reaper): set<Uid> {
    match r
    case Scanning(_, found) => found
    case Listing(found) => found
    case Checking(keys, held) => keys - held
    case Asking(uid, keys, held) => {uid} + (keys - held)
    case Discarding(uid, keys, held) => {uid} + (keys - held)
    case _ => {}
  }

  /** Everything in use has been minted. */
  ghost predicate AllMinted(s: State) {
    && s.w.nodes.Keys <= s.minted && s.w.hashes.Keys <= s.minted && s.exited.Keys <= s.minted
    && (forall e :: e in s.w.exits ==> e.uid in s.minted)
    && (forall e :: e in Ahead(s.reaper) ==> e.uid in s.minted)
    && Suspects(s.reaper) <= s.minted && AtHand(s.reaper) <= s.minted
    && s.unlisted <= s.minted
    && (s.listener.Flagging? || s.listener.Popping? || s.listener.Deleting? ==> s.listener.uid in s.minted)
  }

  /** An id not stored yet is nowhere else yet. */
  ghost predicate StoresFirst(s: State) {
    s.listener.Storing? ==>
      var uid := s.listener.uid;
      && uid in s.minted && uid !in s.w.nodes && uid !in s.w.hashes && uid !in Suspects(s.reaper) && uid !in AtHand(s.reaper)
      && (forall e :: e in s.w.exits ==> e.uid != uid)
      && (forall e :: e in Ahead(s.reaper) ==> e.uid != uid)
  }

  /** Whoever is about to lose its hash is no longer held. */
  ghost predicate DropsUnheld(s: State) {
    && (s.listener.Hashing? ==> s.listener.uid in s.minted)
    && (s.listener.Reading? || s.listener.Deleting? ==> s.listener.uid !in s.w.nodes)
    && (forall u :: u in AtHand(s.reaper) ==> u !in s.w.nodes)
    && (s.reaper.Checking? || s.reaper.Asking? || s.reaper.Discarding? ==>
          forall u :: u in Suspects(s.reaper) ==> u !in s.w.nodes)
  }

  /** Every held process has its own hash, or is about to get it. */
  ghost predicate HeldHaveHashes(s: State) {
    && (forall u :: u in s.w.nodes ==>
          if u in s.w.hashes then s.w.hashes[u] == s.w.nodes[u] else s.listener == Hashing(u, s.w.nodes[u]))
    && (s.listener.Hashing? ==> s.listener.uid !in s.w.hashes)
  }

  ghost predicate DistinctAhead(todo: seq<Entry>) {
    forall i, j :: 0 <= i < j < |todo| ==> todo[i].uid != todo[j].uid
  }

  /** Published exits are distinct and real, and their processes are dealt with. */
  ghost predicate ExitsOnce(s: State) {
    && DistinctUids(s.w.exits)
    && (forall e :: e in s.w.exits ==> e.uid !in s.w.nodes)
    && DistinctAhead(Ahead(s.reaper))
    && (forall e, x :: e in Ahead(s.reaper) && x in s.w.exits ==> e.uid != x.uid)
    && (s.reaper.Unhashing? ==> forall e :: e in s.reaper.todo ==> e.uid != s.reaper.e.uid)
  }

  /** Exits name processes that ended, with the codes they ended with. */
  ghost predicate ExitsReal(s: State) {
    && (forall e :: e in s.w.exits ==> e.uid in s.exited && s.exited[e.uid] == e.code)
    && (s.reaper.Dropping? || s.reaper.Looking? || s.reaper.Publishing? ==>
          s.reaper.e.uid in s.exited && s.exited[s.reaper.e.uid] == s.reaper.code)
  }

  /** Where the hash of a process the reaper still has ahead of it can be. */
  predicate Accounted(s: State, u: Uid) {
    u in s.w.hashes || (s.listener.Hashing? && s.listener.uid == u) || u in s.unlisted
  }

  /** The hash of a listed process is missing only before its launch has written it or after a
      kill has deleted it, and then it is missing for good. */
  ghost predicate HashesAccounted(s: State) {
    && (forall e :: e in Ahead(s.reaper) ==> Accounted(s, e.uid))
    && (forall u :: u in s.unlisted ==> u !in s.w.hashes)
    && (s.listener.Storing? || s.listener.Hashing? ==> s.listener.uid !in s.unlisted)
  }

  ghost predicate Inv(s: State) {
    && AllMinted(s) && StoresFirst(s) && DropsUnheld(s) && HeldHaveHashes(s)
    && ExitsOnce(s) && ExitsReal(s) && HashesAccounted(s)
  }

  /** A Supervisor that has just started: nothing held, old hashes and old exits as they were. */
  ghost predicate Init(s: State) {
    && s.w.nodes == map[] && s.listener == Idle && s.reaper == Resting
    && s.w.hashes.Keys <= s.minted && s.exited.Keys <= s.minted && s.unlisted == {}
    && s.launched == {} && s.lost == {}
    && (forall e :: e in s.w.exits ==> e.uid in s.minted) && DistinctUids(s.w.exits) && ExitsReal(s)
  }

  lemma LaunchKeeps(s: State)
    requires Inv(s) && (s.listener.Storing? || s.listener.Hashing?)
    ensures Inv(Listen(s))
  {
  }

  lemma KillKeeps(s: State)
    requires Inv(s) && (s.listener.Idle? || s.listener.Reading? || s.listener.Flagging?)
    ensures Inv(Listen(s))
  {
  }

  lemma UnlistKeeps(s: State)
    requires Inv(s) && (s.listener.Popping? || s.listener.Deleting?)
    ensures Inv(Listen(s))
  {
  }

  lemma RequestKeeps(s: State, e: Event)
    requires Inv(s) && (e.LaunchNew? || e.KillAsked? || e.ProcessEnds?)
    ensures Inv(Step(s, e))
  {
  }

  lemma ScanPageKeeps(s: State, keys: set<Uid>)
    requires Inv(s)
    ensures Inv(Step(s, ScanPage(keys)))
  {
  }

  lemma CheckKeyKeeps(s: State, uid: Uid, ok: bool)
    requires Inv(s)
    ensures Inv(Step(s, CheckKey(uid, ok)))
  {
  }

  lemma AnswerKeeps(s: State, alive: bool)
    requires Inv(s)
    ensures Inv(Step(s, Answer(alive)))
  {
  }

  lemma HeadIsDistinct(e: Entry, todo: seq<Entry>)
    requires DistinctAhead([e] + todo)
    ensures DistinctAhead(todo) && forall x :: x in todo ==> x.uid != e.uid
  {
    var all := [e] + todo;
    forall i, j | 0 <= i < j < |todo| ensures todo[i].uid != todo[j].uid {
      assert all[i + 1] == todo[i] && all[j + 1] == todo[j];
    }
    forall i | 0 <= i < |todo| ensures todo[i].uid != e.uid {
      assert all[0] == e && all[i + 1] == todo[i];
    }
  }

  lemma PopKeeps(s: State, ok: bool)
    requires Inv(s) && (s.reaper.Dropping? || s.reaper.Unhashing?)
    ensures Inv(Reap(s, ok))
  {
  }

  lemma LookKeeps(s: State, ok: bool)
    requires Inv(s) && s.reaper.Looking?
    ensures Inv(Reap(s, ok))
  {
    HeadIsDistinct(s.reaper.e, s.reaper.todo);
    assert forall x :: x in s.reaper.todo ==> x in Ahead(s.reaper);
  }

  lemma PublishKeeps(s: State)
    requires Inv(s) && s.reaper.Publishing?
    ensures Inv(Reap(s, true))
  {
    HeadIsDistinct(s.reaper.e, s.reaper.todo);
    assert s.reaper.e in Ahead(s.reaper);
    assert forall x :: x in s.reaper.todo ==> x in Ahead(s.reaper);
  }

  lemma PublishFailureKeeps(s: State)
    requires Inv(s) && s.reaper.Publishing?
    ensures Inv(Reap(s, false))
  {
    HeadIsDistinct(s.reaper.e, s.reaper.todo);
    assert forall x :: x in s.reaper.todo ==> x in Ahead(s.reaper);
  }

  lemma VisitKeeps(s: State, ok: bool)
    requires Inv(s) && s.reaper.Visiting? && s.reaper.todo != []
    ensures Inv(Reap(s, ok))
  {
    var todo := s.reaper.todo;
    assert todo == [todo[0]] + todo[1..];
    HeadIsDistinct(todo[0], todo[1..]);
  }

  lemma ScanKeeps(s: State, ok: bool)
    requires Inv(s) && (s.reaper == Visiting([]) || s.reaper.Scanning? || s.reaper.Listing?)
    ensures Inv(Reap(s, ok))
  {
  }

  lemma DiscardKeeps(s: State, ok: bool)
    requires Inv(s) && (s.reaper.Resting? || s.reaper.Checking? || s.reaper.Asking? || s.reaper.Discarding?)
    ensures Inv(Reap(s, ok))
  {
    assert s.reaper.Discarding? ==> s.reaper.uid in Suspects(s.reaper);
  }

  lemma ReapStartKeeps(s: State, items: seq<Uid>)
    requires Inv(s)
    ensures Inv(Step(s, ReapStart(items)))
  {
  }

  lemma ListenKeeps(s: State)
    requires Inv(s)
    ensures Inv(Listen(s))
  {
    match s.listener
    case Storing(_, _) => LaunchKeeps(s);
    case Hashing(_, _) => LaunchKeeps(s);
    case Popping(_) => UnlistKeeps(s);
    case Deleting(_) => UnlistKeeps(s);
    case _ => KillKeeps(s);
  }

  lemma ReapKeeps(s: State, ok: bool)
    requires Inv(s)
    ensures Inv(Reap(s, ok))
  {
    match s.reaper
    case Visiting(todo) => if todo == [] { ScanKeeps(s, ok); } else { VisitKeeps(s, ok); }
    case Dropping(_, _, _) => PopKeeps(s, ok);
    case Looking(_, _, _) => LookKeeps(s, ok);
    case Publishing(_, _, _) => if ok { PublishKeeps(s); } else { PublishFailureKeeps(s); }
    case Unhashing(_, _) => PopKeeps(s, ok);
    case Scanning(_, _) => ScanKeeps(s, ok);
    case Listing(_) => ScanKeeps(s, ok);
    case _ => DiscardKeeps(s, ok);
  }

  lemma StepKeeps(s: State, e: Event)
    requires Inv(s)
    ensures Inv(Step(s, e))
  {
    match e
    case ListenerStep => ListenKeeps(s);
    case LaunchNew(_, _) => RequestKeeps(s, e);
    case KillAsked(_, _) => RequestKeeps(s, e);
    case ProcessEnds(_, _) => RequestKeeps(s, e);
    case ReapStart(items) => ReapStartKeeps(s, items);
    case ReaperStep(ok) => ReapKeeps(s, ok);
    case ScanPage(keys) => ScanPageKeeps(s, keys);
    case CheckKey(uid, ok) => CheckKeyKeeps(s, uid, ok);
    case Answer(alive) => AnswerKeeps(s, alive);
  }

  lemma {:induction false} RunKeeps(s: State, es: seq<Event>)
    requires Inv(s)
    ensures Inv(After(s, es))
  {
    if es != [] {
      RunKeeps(s, es[..|es| - 1]);
      StepKeeps(After(s, es[..|es| - 1]), es[|es| - 1]);
    }
  }

  lemma InitInv(s: State)
    requires Init(s)
    ensures Inv(s)
  {
  }

  // --- the results -------------------------------------------------------------------

  lemma HeldHashStays(s: State, e: Event, u: Uid)
    requires Inv(s) && u in s.w.nodes && u in s.w.hashes
    ensures u in Step(s, e).w.hashes && Step(s, e).w.hashes[u] == s.w.hashes[u]
  {
    assert s.reaper.Discarding? ==> s.reaper.uid in Suspects(s.reaper);
    assert s.reaper.Unhashing? ==> s.reaper.e.uid in AtHand(s.reaper);
  }

  /** Whatever the threads do, no step takes the hash of a process that is held in memory. */
  lemma HeldHashesStay(s: State, es: seq<Event>, e: Event, u: Uid)
    requires Init(s)
    ensures var t := After(s, es);
            u in t.w.nodes && u in t.w.hashes ==> u in Step(t, e).w.hashes && Step(t, e).w.hashes[u] == t.w.hashes[u]
  {
    InitInv(s);
    RunKeeps(s, es);
    var t := After(s, es);
    if u in t.w.nodes && u in t.w.hashes { HeldHashStays(t, e, u); }
  }

  /** Every held process has a hash that names it, except the one whose launch is just writing it. */
  lemma EveryHeldProcessIsListed(s: State, es: seq<Event>, u: Uid)
    requires Init(s)
    ensures var t := After(s, es);
            u in t.w.nodes ==>
              (u in t.w.hashes && t.w.hashes[u] == t.w.nodes[u]) || t.listener == Hashing(u, t.w.nodes[u])
  {
    InitInv(s);
    RunKeeps(s, es);
  }

  /** Reconciling drops no hash of a held process, with launches anywhere in between. */
  lemma ReconcileSparesTheHeld(s: State, es: seq<Event>)
    requires Init(s)
    ensures var t := After(s, es); t.reaper.Discarding? ==> t.reaper.uid !in t.w.nodes
  {
    InitInv(s);
    RunKeeps(s, es);
    var t := After(s, es);
    assert t.reaper.Discarding? ==> t.reaper.uid in Suspects(t.reaper);
  }

  /** Over all interleavings an id gets at most one exit, with the code its process ended with,
      and only after it left memory. */
  lemma OneExitPerProcess(s: State, es: seq<Event>)
    requires Init(s)
    ensures var t := After(s, es);
            && DistinctUids(t.w.exits)
            && forall e :: e in t.w.exits ==> e.uid !in t.w.nodes && e.uid in t.exited && t.exited[e.uid] == e.code
  {
    InitInv(s);
    RunKeeps(s, es);
  }

  /** No longer held, not listed by the reaper, and without an exit. */
  ghost predicate Forgotten(s: State, u: Uid) {
    && u in s.minted && u !in s.w.nodes && !(s.listener.Storing? && s.listener.uid == u)
    && (forall e :: e in Ahead(s.reaper) ==> e.uid != u)
    && (forall e :: e in s.w.exits ==> e.uid != u)
  }

  lemma AheadShrinks(s: State, ok: bool, x: Entry)
    requires x in Ahead(Reap(s, ok).reaper)
    ensures x in Ahead(s.reaper)
  {
  }

  lemma ForgottenReap(s: State, ok: bool, u: Uid)
    requires Forgotten(s, u)
    ensures Forgotten(Reap(s, ok), u)
  {
    forall x | x in Ahead(Reap(s, ok).reaper) ensures x.uid != u { AheadShrinks(s, ok, x); }
    if s.reaper.Publishing? {
      assert s.reaper.e in Ahead(s.reaper);
    }
  }

  lemma ForgottenStep(s: State, e: Event, u: Uid)
    requires Forgotten(s, u)
    ensures Forgotten(Step(s, e), u)
  {
    if e.ReaperStep? { ForgottenReap(s, e.ok, u); }
  }

  lemma {:induction false} ForgottenForever(s: State, es: seq<Event>, u: Uid)
    requires Forgotten(s, u)
    ensures Forgotten(After(s, es), u)
  {
    if es != [] {
      ForgottenForever(s, es[..|es| - 1], u);
      ForgottenStep(After(s, es[..|es| - 1]), es[|es| - 1], u);
    }
  }

  lemma NextCallFails(s: State)
    requires Inv(s) && (s.reaper.Looking? || s.reaper.Publishing?)
    ensures var t := s.(lost := s.lost + {s.reaper.e.uid}, reaper := Visiting(s.reaper.todo));
            Forgotten(t, s.reaper.e.uid)
  {
    HeadIsDistinct(s.reaper.e, s.reaper.todo);
    assert s.reaper.e in Ahead(s.reaper) && s.reaper.e.uid in AtHand(s.reaper);
  }

  lemma NextCallPublishes(s: State)
    requires s.reaper.Publishing?
    ensures var t := Step(s, ReaperStep(true));
            t.w.exits == s.w.exits + [Exit(s.reaper.e.uid, s.reaper.e.m.endpoint, s.reaper.code)]
  {
  }

  lemma NextCallFinds(s: State)
    requires s.reaper.Looking? && s.reaper.e.uid in s.w.hashes
    ensures var t := Step(s, ReaperStep(true));
            t.reaper == Publishing(s.reaper.e, s.reaper.code, s.reaper.todo) && !Forgotten(t, s.reaper.e.uid)
  {
    assert s.reaper.e in Ahead(Step(s, ReaperStep(true)).reaper);
  }

  /** Working on an entry, the reaper loses its exit for good exactly when the call at hand fails
      or, looking for the hash, it finds none. */
  lemma ExitIsLostIff(s: State, ok: bool)
    requires Inv(s) && (s.reaper.Looking? || s.reaper.Publishing?)
    ensures Forgotten(Step(s, ReaperStep(ok)), s.reaper.e.uid)
            <==> !ok || (s.reaper.Looking? && s.reaper.e.uid !in s.w.hashes)
  {
    if !ok || (s.reaper.Looking? && s.reaper.e.uid !in s.w.hashes) {
      NextCallFails(s);
    } else if s.reaper.Looking? {
      NextCallFinds(s);
    } else {
      NextCallPublishes(s);
      var exits := Step(s, ReaperStep(true)).w.exits;
      assert exits[|exits| - 1].uid == s.reaper.e.uid;
    }
  }

  /** The hash is missing then if and only if the launch of the process has not written it yet or
      a kill has deleted it. */
  lemma HashIsMissingIff(s: State)
    requires Inv(s) && s.reaper.Looking?
    ensures var u := s.reaper.e.uid;
            u !in s.w.hashes <==> (s.listener.Hashing? && s.listener.uid == u) || u in s.unlisted
  {
    assert s.reaper.e in Ahead(s.reaper);
  }

  /** An exit that is lost is never published, however long the system runs. */
  lemma LostIsNeverPublished(s: State, ok: bool, es: seq<Event>)
    requires Inv(s) && (s.reaper.Looking? || s.reaper.Publishing?)
    requires !ok || (s.reaper.Looking? && s.reaper.e.uid !in s.w.hashes)
    ensures forall e :: e in After(Step(s, ReaperStep(ok)), es).w.exits ==> e.uid != s.reaper.e.uid
  {
    ExitIsLostIff(s, ok);
    ForgottenForever(Step(s, ReaperStep(ok)), es, s.reaper.e.uid);
  }

  /** While the reaper has not made its next call, nobody moves it. */
  lemma {:induction false} ReaperWaits(s: State, es: seq<Event>)
    requires s.reaper.Publishing? && forall k :: 0 <= k < |es| ==> !es[k].ReaperStep?
    ensures After(s, es).reaper == s.reaper
  {
    if es != [] { ReaperWaits(s, es[..|es| - 1]); }
  }

  lemma WaitsThenPublishes(s: State, between: seq<Event>, e: Entry, code: int)
    requires s.reaper.Publishing? && s.reaper.e == e && s.reaper.code == code
    requires forall k :: 0 <= k < |between| ==> !between[k].ReaperStep?
    ensures Exit(e.uid, e.m.endpoint, code) in Step(After(s, between), ReaperStep(true)).w.exits
  {
    ReaperWaits(s, between);
    var t := After(s, between);
    NextCallPublishes(t);
    assert Step(t, ReaperStep(true)).w.exits[|t.w.exits|] == Exit(e.uid, e.m.endpoint, code);
  }

  /** Otherwise the exit is published, whatever the others do between the reaper's two calls. */
  lemma FoundIsPublished(s: State, between: seq<Event>)
    requires s.reaper.Looking? && s.reaper.e.uid in s.w.hashes
    requires forall k :: 0 <= k < |between| ==> !between[k].ReaperStep?
    ensures Exit(s.reaper.e.uid, s.reaper.e.m.endpoint, s.reaper.code)
            in Step(After(Step(s, ReaperStep(true)), between), ReaperStep(true)).w.exits
  {
    NextCallFinds(s);
    WaitsThenPublishes(Step(s, ReaperStep(true)), between, s.reaper.e, s.reaper.code);
  }

  lemma {:induction false} AfterConcat(s: State, a: seq<Event>, b: seq<Event>)
    ensures After(s, a + b) == After(After(s, a), b)
  {
    if b == [] {
      assert a + b == a;
    } else {
      var n := |b| - 1;
      assert (a + b)[..|a + b| - 1] == a + b[..n];
      AfterConcat(s, a, b[..n]);
    }
  }

  lemma AfterThree(s: State, a: Event, b: Event, c: Event)
    ensures After(s, [a, b, c]) == Step(Step(Step(s, a), b), c)
  {
    assert [a, b, c][..2] == [a, b] && [a, b][..1] == [a] && [a][..0] == [];
    assert After(s, [a]) == Step(After(s, []), a);
  }

  /** A process ends before its launch has written its hash, and the reaper gets to it in time. */
  function EarlyEnd(uid: Uid, m: Managed, code: int): seq<Event> {
    [LaunchNew(uid, m), ListenerStep, ProcessEnds(uid, code)] + [ReapStart([uid]), ReaperStep(true), ReaperStep(true)]
  }

  lemma EarlyEndLaunches(s: State, uid: Uid, m: Managed, code: int)
    requires Init(s) && uid !in s.minted
    ensures var t := Step(Step(Step(s, LaunchNew(uid, m)), ListenerStep), ProcessEnds(uid, code));
            && t.listener == Hashing(uid, m) && t.reaper == Resting && t.w.nodes == map[uid := m]
            && t.w.hashes == s.w.hashes && t.exited == s.exited[uid := code]
  {
  }

  lemma EarlyEndReaps(s: State, uid: Uid, m: Managed, code: int)
    requires s.reaper == Resting && s.w.nodes == map[uid := m] && uid in s.exited && s.exited[uid] == code
    ensures var t := Step(Step(Step(s, ReapStart([uid])), ReaperStep(true)), ReaperStep(true));
            && t.listener == s.listener && t.reaper == Looking(Entry(uid, m), code, [])
            && t.w.hashes == s.w.hashes && t.exited == s.exited
  {
    assert Lists([uid], s.w.nodes.Keys);
    assert Entries(s.w.nodes, [uid]) == [Entry(uid, m)] && [Entry(uid, m)][1..] == [];
  }

  lemma EarlyEndIsReached(s: State, uid: Uid, m: Managed, code: int)
    requires Init(s) && uid !in s.minted
    ensures var t := After(s, EarlyEnd(uid, m, code));
            && t.listener == Hashing(uid, m) && t.reaper == Looking(Entry(uid, m), code, [])
            && uid !in t.w.hashes && uid in t.exited
  {
    var launch := [LaunchNew(uid, m), ListenerStep, ProcessEnds(uid, code)];
    var reap := [ReapStart([uid]), ReaperStep(true), ReaperStep(true)];
    AfterConcat(s, launch, reap);
    AfterThree(s, LaunchNew(uid, m), ListenerStep, ProcessEnds(uid, code));
    EarlyEndLaunches(s, uid, m, code);
    var t := After(s, launch);
    AfterThree(t, ReapStart([uid]), ReaperStep(true), ReaperStep(true));
    EarlyEndReaps(t, uid, m, code);
  }

  /** From a fresh start: a process ends, has left memory and has its hash in the end, and no exit
      is ever published for it. */
  lemma ExitCanBeLost(s: State, uid: Uid, m: Managed, code: int, es: seq<Event>)
    requires Init(s) && uid !in s.minted
    ensures var t := Step(Step(After(s, EarlyEnd(uid, m, code)), ReaperStep(true)), ListenerStep);
            && uid in t.exited && uid !in t.w.nodes && uid in t.w.hashes
            && forall e :: e in After(t, es).w.exits ==> e.uid != uid
  {
    InitInv(s);
    RunKeeps(s, EarlyEnd(uid, m, code));
    EarlyEndIsReached(s, uid, m, code);
    var t := After(s, EarlyEnd(uid, m, code));
    assert uid in AtHand(t.reaper);
    ExitIsLostIff(t, true);
    var lost := Step(t, ReaperStep(true));
    ForgottenStep(lost, ListenerStep, uid);
    ForgottenForever(Step(lost, ListenerStep), es, uid);
  }

  // --- every exit is accounted for ------------------------------------------------------

  /** The entries whose processes the reaper has not popped yet. */
  function Unpopped(r: Reaper): seq<Entry> {
    match r
    case Dropping(e, _, todo) => [e] + todo
    case Visiting(todo) => todo
    case Looking(_, _, todo) => todo
    case Publishing(_, _, todo) => todo
    case Unhashing(_, todo) => todo
    case _ => []
  }

  ghost predicate Has(exits: seq<Exit>, u: Uid) {
    exists e :: e in exits && e.uid == u
  }

  ghost predicate IsAhead(r: Reaper, u: Uid) {
    exists e :: e in Ahead(r) && e.uid == u
  }

  /** What has become of a process that was launched. */
  ghost predicate AccountedFor(s: State, u: Uid) {
    u in s.w.nodes || IsAhead(s.reaper, u) || Has(s.w.exits, u) || u in s.w.flagged || u in s.lost
  }

  ghost predicate Accounts(s: State) {
    && (forall u :: u in s.launched ==> AccountedFor(s, u))
    && (forall e :: e in Unpopped(s.reaper) ==> e.uid in s.w.nodes || e.uid in s.w.flagged)
    && (s.listener.Popping? ==> s.listener.uid in s.w.flagged)
  }

  lemma ListenKeepsAccounts(s: State)
    requires Accounts(s)
    ensures Accounts(Listen(s))
  {
    forall u | u in Listen(s).launched ensures AccountedFor(Listen(s), u) {
      assert u in s.launched ==> AccountedFor(s, u);
    }
  }

  /** An entry leaves the reaper's list with its process still held or killed, with its exit
      published, or given up. */
  lemma ReapKeepsAccounts(s: State, ok: bool)
    requires Inv(s) && Accounts(s)
    ensures Accounts(Reap(s, ok))
  {
    var t := Reap(s, ok);
    forall u | u in t.launched ensures AccountedFor(t, u) {
      assert AccountedFor(s, u);
      ReapAccountsFor(s, ok, u);
    }
    UnpoppedShrinks(s, ok);
  }

  lemma UnpoppedShrinks(s: State, ok: bool)
    requires DistinctAhead(Ahead(s.reaper))
    requires forall e :: e in Unpopped(s.reaper) ==> e.uid in s.w.nodes || e.uid in s.w.flagged
    ensures var t := Reap(s, ok);
            forall e :: e in Unpopped(t.reaper) ==> e.uid in t.w.nodes || e.uid in t.w.flagged
  {
    if s.reaper.Dropping? { HeadIsDistinct(s.reaper.e, s.reaper.todo); }
  }

  lemma ReapAccountsFor(s: State, ok: bool, u: Uid)
    requires Accounts(s) && AccountedFor(s, u)
    ensures AccountedFor(Reap(s, ok), u)
  {
  }

  lemma StepKeepsAccounts(s: State, e: Event)
    requires Inv(s) && Accounts(s)
    ensures Accounts(Step(s, e))
  {
    match e
    case ListenerStep => ListenKeepsAccounts(s);
    case ReaperStep(ok) => ReapKeepsAccounts(s, ok);
    case _ =>
      var t := Step(s, e);
      forall u | u in t.launched ensures AccountedFor(t, u) { assert AccountedFor(s, u); }
  }

  /** A lost exit is forgotten, in every state of every run. */
  lemma {:induction false} LostStaysLost(s: State, es: seq<Event>)
    requires Init(s)
    ensures forall u :: u in After(s, es).lost ==> Forgotten(After(s, es), u)
  {
    if es != [] {
      var n := |es| - 1;
      var t := After(s, es[..n]);
      LostStaysLost(s, es[..n]);
      InitInv(s);
      RunKeeps(s, es[..n]);
      forall u | u in Step(t, es[n]).lost ensures Forgotten(Step(t, es[n]), u) {
        if u in t.lost { ForgottenStep(t, es[n], u); } else { NewlyLost(t, es[n], u); }
      }
    }
  }

  lemma NewlyLost(s: State, e: Event, u: Uid)
    requires Inv(s) && u in Step(s, e).lost && u !in s.lost
    ensures Forgotten(Step(s, e), u)
  {
    NextCallFails(s);
  }

  lemma {:induction false} RunKeepsAccounts(s: State, es: seq<Event>)
    requires Init(s)
    ensures Accounts(After(s, es))
  {
    if es != [] {
      var n := |es| - 1;
      InitInv(s);
      RunKeeps(s, es[..n]);
      RunKeepsAccounts(s, es[..n]);
      StepKeepsAccounts(After(s, es[..n]), es[n]);
    }
  }

  /** Over every interleaving, every process launched since the start that has left memory and that
      the reaper is done with has its exit published, or was flagged by a kill, or had its exit lost
      to a failing call or a missing hash; and a lost one has none. */
  lemma EveryExitIsAccountedFor(s: State, es: seq<Event>, u: Uid)
    requires Init(s)
    requires var t := After(s, es); u in t.launched && u !in t.w.nodes && !IsAhead(t.reaper, u)
    ensures var t := After(s, es);
            && (Has(t.w.exits, u) || u in t.w.flagged || u in t.lost)
            && (u in t.lost ==> !Has(t.w.exits, u))
  {
    RunKeepsAccounts(s, es);
    LostStaysLost(s, es);
    assert AccountedFor(After(s, es), u);
    assert u in After(s, es).lost ==> Forgotten(After(s, es), u);
  }
}
