/**
  The Supervisor's timed singleton lease in Redis, one Redis command per step.

  Any number of processes acquire, beat, stop and crash, interleaved in every way. `Db` is what
  Redis holds: the singleton key and the alive mark, each with the time it expires. `Process` is
  where a process stands: its main thread and its heartbeat thread.
 */
module SupervisorLease {
  import opened Wrappers

  const ALIVE_TTL := 5.0
  const SINGLETON_TTL := 10.0

  /** The owner token of a process; no two processes share one. */
  type Pid = nat

  datatype Key = Key(owner: Pid, expires: real)

  datatype Db = Db(now: real, key: Option<Key>, alive: Option<real>) {
    predicate KeyLive() {
      key.Some? && now < key.value.expires
    }

    predicate OwnedBy(p: Pid) {
      KeyLive() && key.value.owner == p
    }

    predicate AliveLive() {
      alive.Some? && now < alive.value
    }

    function SetKey(p: Pid): Db {
      this.(key := Some(Key(p, now + SINGLETON_TTL)))
    }

    /** EXPIRE pushes out whatever key is there, whoever owns it. */
    function PushOut(): Db {
      if KeyLive() then SetKey(key.value.owner) else this
    }

    function Mark(): Db {
      this.(alive := Some(now + ALIVE_TTL))
    }
  }

  // --- whole operations, as one undisturbed caller sees them --------------------

  /** Claiming the singleton: a free key is taken; a held key is stolen when the alive mark is
      gone or cannot be read. */
  function Acquired(db: Db, p: Pid, readOk: bool): (Db, bool) {
    if !db.KeyLive() then (db.SetKey(p), true)
    else if readOk && db.AliveLive() then (db, false)
    else (db.SetKey(p), true)
  }

  function Refreshed(db: Db, p: Pid): (Db, bool) {
    if !db.KeyLive() then (db.SetKey(p), true)
    else if !db.OwnedBy(p) then (db, false)
    else (db.PushOut(), true)
  }

  function Released(db: Db, p: Pid): Db {
    if db.OwnedBy(p) then db.(key := None) else db
  }

  /** The two keys as the functions of the source change them. */
  class PersistentRedis {
    var now: real
    var key: Option<Key>
    var alive: Option<real>

    function View(): Db
      reads this
    {
      Db(now, key, alive)
    }

    constructor (now: real)
      ensures View() == Db(now, None, None)
    {
      this.now := now;
      key, alive := None, None;
    }

    method MarkAlive()
      modifies this
      ensures View() == old(View()).Mark()
    {
      alive := Some(now + ALIVE_TTL);
    }

    method ClearAlive()
      modifies this
      ensures View() == old(View()).(alive := None)
    {
      alive := None;
    }

    method IsAlive(readOk: bool) returns (r: bool)
      ensures r == (readOk && View().AliveLive())
    {
      r := false;
      if readOk {
        r := alive.Some? && now < alive.value;
      }
    }

    /** SET NX EX: true when the key was free and is now the caller's. */
    method SetIfFree(p: Pid) returns (taken: bool)
      modifies this
      ensures taken == !old(View()).KeyLive()
      ensures View() == if taken then old(View()).SetKey(p) else old(View())
    {
      taken := key.None? || key.value.expires <= now;
      if taken {
        key := Some(Key(p, now + SINGLETON_TTL));
      }
    }

    method Acquire(p: Pid, readOk: bool) returns (got: bool)
      modifies this
      ensures (View(), got) == Acquired(old(View()), p, readOk)
    {
      got := SetIfFree(p);
      if !got {
        var held := IsAlive(readOk);
        if !held {
          key := Some(Key(p, now + SINGLETON_TTL));
          got := true;
        }
      }
    }

    method Refresh(p: Pid) returns (held: bool)
      modifies this
      ensures (View(), held) == Refreshed(old(View()), p)
    {
      var current := if key.Some? && now < key.value.expires then Some(key.value.owner) else None;
      if current.None? {
        held := SetIfFree(p);
      } else if current.value != p {
        held := false;
      } else {
        key := Some(Key(current.value, now + SINGLETON_TTL));
        held := true;
      }
    }

    method Release(p: Pid)
      modifies this
      ensures View() == Released(old(View()), p)
    {
      var current := if key.Some? && now < key.value.expires then Some(key.value.owner) else None;
      if current == Some(p) {
        key := None;
      }
    }

    /** One turn of the heartbeat: it holds on exactly when the key is free or its own, and then
        it owns a live key under a live mark. */
    method Beat(p: Pid) returns (held: bool)
      modifies this
      ensures (View(), held) == Refreshed(old(View()).Mark(), p)
      ensures held <==> !old(View()).KeyLive() || old(View()).OwnedBy(p)
      ensures held ==> View().OwnedBy(p) && View().AliveLive()
      ensures !held ==> View().key == old(View()).key
    {
      MarkAlive();
      held := Refresh(p);
    }

    /** Stopping leaves no mark and no key of one's own, and another's key as it was. */
    method Stop(p: Pid)
      modifies this
      ensures View() == Released(old(View()).(alive := None), p)
      ensures !View().AliveLive() && !View().OwnedBy(p)
      ensures !old(View()).OwnedBy(p) ==> View().key == old(View()).key
    {
      ClearAlive();
      Release(p);
    }
  }

  // --- interleaved steps ---------------------------------------------------------

  /** The main thread: acquiring, running, then stopping twice over (once in `stop`, once on exit). */
  datatype Main =
    | Outside
    | CheckAlive
    | Steal
    | Starting
    | Running
    | Clearing(last: bool)
    | ReleaseRead(last: bool)
    | ReleaseDelete(last: bool)
    | Gone

  /** The heartbeat thread, between two Redis commands. */
  datatype Beat = Off | Head | Mark | Read | PushOut | Retake

  /** `marked` is when the process last marked itself alive; it is history, not program state. */
  datatype Process = Process(main: Main, beat: Beat, stop: bool, marked: real)

  datatype State = State(db: Db, procs: map<Pid, Process>) {
    function P(p: Pid): Process {
      if p in procs then procs[p] else Process(Outside, Off, false, 0.0)
    }

    function With(p: Pid, q: Process): State {
      this.(procs := procs[p := q])
    }
  }

  datatype Event =
    | Tick(dt: real)
    | TryAcquire(p: Pid)
    | ReadAlive(p: Pid, ok: bool)
    | StealKey(p: Pid)
    | Start(p: Pid)
    | BeatHead(p: Pid)
    | BeatMark(p: Pid)
    | BeatRead(p: Pid)
    | BeatPushOut(p: Pid)
    | BeatRetake(p: Pid)
    | Shutdown(p: Pid)
    | ClearAlive(p: Pid)
    | ReadKey(p: Pid)
    | DeleteKey(p: Pid)
    | Crash(p: Pid)

  function AfterRelease(q: Process, last: bool): Process {
    if last then q.(main := Gone, beat := Off) else q.(main := Clearing(true))
  }

  /** The heartbeat's refresh failed: the loop ends and tells the main thread to stop. */
  function Lost(q: Process): Process {
    q.(beat := Off, stop := true)
  }

  function AcquireStep(s: State, e: Event): State
    requires e.TryAcquire? || e.ReadAlive? || e.StealKey?
  {
    var q := s.P(e.p);
    match e
    case TryAcquire(p) =>
      if q.main != Outside then s
      else if s.db.KeyLive() then s.With(p, q.(main := CheckAlive))
      else s.With(p, q.(main := Starting)).(db := s.db.SetKey(p))
    case ReadAlive(p, ok) =>
      if q.main != CheckAlive then s
      else s.With(p, q.(main := if ok && s.db.AliveLive() then Gone else Steal))
    case StealKey(p) =>
      if q.main != Steal then s else s.With(p, q.(main := Starting)).(db := s.db.SetKey(p))
  }

  function BeatStep(s: State, e: Event): State
    requires e.BeatHead? || e.BeatMark? || e.BeatRead? || e.BeatPushOut? || e.BeatRetake?
  {
    var q := s.P(e.p);
    match e
    case BeatHead(p) =>
      if q.beat != Head then s else s.With(p, q.(beat := if q.stop then Off else Mark))
    case BeatMark(p) =>
      if q.beat != Mark then s else s.With(p, q.(beat := Read, marked := s.db.now)).(db := s.db.Mark())
    case BeatRead(p) =>
      if q.beat != Read then s
      else if !s.db.KeyLive() then s.With(p, q.(beat := Retake))
      else if s.db.OwnedBy(p) then s.With(p, q.(beat := PushOut))
      else s.With(p, Lost(q))
    case BeatPushOut(p) =>
      if q.beat != PushOut then s else s.With(p, q.(beat := Head)).(db := s.db.PushOut())
    case BeatRetake(p) =>
      if q.beat != Retake then s
      else if s.db.KeyLive() then s.With(p, Lost(q))
      else s.With(p, q.(beat := Head)).(db := s.db.SetKey(p))
  }

  function MainStep(s: State, e: Event): State
    requires e.Start? || e.Shutdown? || e.ClearAlive? || e.ReadKey? || e.DeleteKey? || e.Crash?
  {
    var q := s.P(e.p);
    match e
    case Start(p) =>
      if q.main != Starting then s
      else s.With(p, q.(main := Running, beat := Head, marked := s.db.now)).(db := s.db.Mark())
    case Shutdown(p) =>
      if q.main != Running then s else s.With(p, q.(main := Clearing(false), stop := true))
    case ClearAlive(p) =>
      if !q.main.Clearing? then s
      else s.With(p, q.(main := ReleaseRead(q.main.last))).(db := s.db.(alive := None))
    case ReadKey(p) =>
      if !q.main.ReleaseRead? then s
      else if s.db.OwnedBy(p) then s.With(p, q.(main := ReleaseDelete(q.main.last)))
      else s.With(p, AfterRelease(q, q.main.last))
    case DeleteKey(p) =>
      if !q.main.ReleaseDelete? then s
      else s.With(p, AfterRelease(q, q.main.last)).(db := s.db.(key := None))
    case Crash(p) => s.With(p, q.(main := Gone, beat := Off))
  }

  function Step(s: State, e: Event): State {
    if e.Tick? then (if e.dt < 0.0 then s else s.(db := s.db.(now := s.db.now + e.dt)))
    else if e.TryAcquire? || e.ReadAlive? || e.StealKey? then AcquireStep(s, e)
    else if e.Start? || e.Shutdown? || e.ClearAlive? || e.ReadKey? || e.DeleteKey? || e.Crash? then MainStep(s, e)
    else BeatStep(s, e)
  }

  function After(s: State, es: seq<Event>): State
    decreases |es|
  {
    if es == [] then s else After(Step(s, es[0]), es[1..])
  }

  // --- the steps together are the whole operations --------------------------------

  /** The steps of one acquire, when nobody steps in between, are the acquire of the source. */
  lemma AcquireIsItsSteps(s: State, p: Pid, readOk: bool)
    requires s.P(p).main == Outside
    ensures var t := After(s, [TryAcquire(p), ReadAlive(p, readOk), StealKey(p)]);
            var (db, got) := Acquired(s.db, p, readOk);
            t.db == db && t.P(p).main == if got then Starting else Gone
  {
    var s1 := Step(s, TryAcquire(p));
    var s2 := Step(s1, ReadAlive(p, readOk));
    Unfold3(s, TryAcquire(p), ReadAlive(p, readOk), StealKey(p));
  }

  lemma Unfold3(s: State, a: Event, b: Event, c: Event)
    ensures After(s, [a, b, c]) == Step(Step(Step(s, a), b), c)
  {
    assert [a, b, c][1..] == [b, c] && [b, c][1..] == [c] && [c][1..] == [];
    assert After(Step(Step(s, a), b), [c]) == After(Step(Step(Step(s, a), b), c), []);
  }

  /** The same for one refresh of the heartbeat. */
  lemma RefreshIsItsSteps(s: State, p: Pid)
    requires s.P(p).beat == Read
    ensures var t := After(s, [BeatRead(p), BeatPushOut(p), BeatRetake(p)]);
            var (db, held) := Refreshed(s.db, p);
            t.db == db && t.P(p) == if held then s.P(p).(beat := Head) else Lost(s.P(p))
  {
    Unfold3(s, BeatRead(p), BeatPushOut(p), BeatRetake(p));
  }

  /** And for a whole turn of the heartbeat: it marks and refreshes, and goes on or ends with what the
      refresh says; once the process was told to stop it ends without touching anything. */
  lemma BeatIsItsSteps(s: State, p: Pid)
    requires s.P(p).beat == Head
    ensures var s2 := Step(Step(s, BeatHead(p)), BeatMark(p));
            var t := After(s2, [BeatRead(p), BeatPushOut(p), BeatRetake(p)]);
            if s.P(p).stop then t.db == s.db && t.P(p) == s.P(p).(beat := Off)
            else
              var (db, held) := Refreshed(s.db.Mark(), p);
              var q := s.P(p).(marked := s.db.now);
              t.db == db && t.P(p) == if held then q.(beat := Head) else Lost(q)
  {
    var s2 := Step(Step(s, BeatHead(p)), BeatMark(p));
    Unfold3(s2, BeatRead(p), BeatPushOut(p), BeatRetake(p));
    if !s.P(p).stop { RefreshIsItsSteps(s2, p); }
  }

  /** And for one release; clearing the alive mark comes before it. */
  lemma ReleaseIsItsSteps(s: State, p: Pid, last: bool)
    requires s.P(p).main == Clearing(last)
    ensures var t := After(s, [ClearAlive(p), ReadKey(p), DeleteKey(p)]);
            && t.db == Released(s.db.(alive := None), p)
            && t.P(p) == AfterRelease(s.P(p), last)
  {
    Unfold3(s, ClearAlive(p), ReadKey(p), DeleteKey(p));
  }
}
