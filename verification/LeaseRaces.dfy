/**
  What goes wrong with the singleton lease when several processes acquire, steal and release it
  at once, and exactly when.
 */
module LeaseRaces {
  import opened Wrappers
  import opened SupervisorLease
  import opened LeaseSafety

  lemma {:induction false} AfterConcat(s: State, a: seq<Event>, b: seq<Event>)
    ensures After(s, a + b) == After(After(s, a), b)
    decreases |a|
  {
    if a == [] {
      assert a + b == b;
    } else {
      assert (a + b)[0] == a[0] && (a + b)[1..] == a[1..] + b;
      AfterConcat(Step(s, a[0]), a[1..], b);
    }
  }

  // --- both acquire --------------------------------------------------------------------

  /** Steps of a and b while they acquire, with the alive mark readable, and the time between them. */
  predicate Acquiring(es: seq<Event>, a: Pid, b: Pid) {
    forall k :: 0 <= k < |es| ==>
      if es[k].Tick? then es[k].dt >= 0.0
      else (es[k].TryAcquire? || (es[k].ReadAlive? && es[k].ok) || es[k].StealKey?) && (es[k].p == a || es[k].p == b)
  }

  /** How much time passes in a run. */
  function Elapsed(es: seq<Event>): real {
    if es == [] then 0.0 else (if es[0].Tick? then es[0].dt else 0.0) + Elapsed(es[1..])
  }

  /** Within t seconds a and b can both get in. */
  ghost predicate BothCanAcquire(s: State, a: Pid, b: Pid, t: real) {
    exists es ::
      && Acquiring(es, a, b) && Elapsed(es) <= t
      && After(s, es).P(a).main == Starting && After(s, es).P(b).main == Starting
  }

  /** The time the key has left. */
  function KeyLeft(db: Db): real {
    if db.KeyLive() then db.key.value.expires - db.now else 0.0
  }

  predicate MarkOutlives(db: Db, t: real) {
    db.alive.Some? && db.now + t < db.alive.value
  }

  /** With t seconds to go the mark outlives them, so nobody steals; at most one is in, and then
      its key outlives them too, and before that a key taken now would. */
  predicate OneAtMost(s: State, a: Pid, b: Pid, t: real) {
    && t >= 0.0 && MarkOutlives(s.db, t) && s.P(a).main != Steal && s.P(b).main != Steal
    && !(s.P(a).main == Starting && s.P(b).main == Starting)
    && t < KeyLeft(s.db) + if s.P(a).main == Starting || s.P(b).main == Starting then 0.0 else SINGLETON_TTL
  }

  lemma {:induction false} ElapsedNotNegative(es: seq<Event>, a: Pid, b: Pid)
    requires Acquiring(es, a, b)
    ensures Elapsed(es) >= 0.0
  {
    if es != [] { ElapsedNotNegative(es[1..], a, b); }
  }

  lemma OneAtMostStep(s: State, e: Event, a: Pid, b: Pid, t: real)
    requires a != b && OneAtMost(s, a, b, t) && Acquiring([e], a, b)
    requires e.Tick? ==> e.dt <= t
    ensures OneAtMost(Step(s, e), a, b, if e.Tick? then t - e.dt else t)
  {
    assert [e][0] == e;
  }

  lemma {:induction false} OneAtMostStays(s: State, es: seq<Event>, a: Pid, b: Pid, t: real)
    requires a != b && OneAtMost(s, a, b, t) && Acquiring(es, a, b) && Elapsed(es) <= t
    ensures !(After(s, es).P(a).main == Starting && After(s, es).P(b).main == Starting)
    decreases |es|
  {
    if es != [] {
      var e, rest := es[0], es[1..];
      ElapsedNotNegative(rest, a, b);
      OneAtMostStep(s, e, a, b, t);
      OneAtMostStays(Step(s, e), rest, a, b, if e.Tick? then t - e.dt else t);
    }
  }

  function DoubleAcquire(a: Pid, b: Pid): seq<Event> {
    [TryAcquire(a), TryAcquire(b), ReadAlive(a, true)] + [ReadAlive(b, true), StealKey(a), StealKey(b)]
  }

  /** Without an alive mark two acquirers that interleave both get in: over a held key by stealing
      it twice, over a free key because the first has it but has not marked itself alive yet. Both
      believe that they hold the singleton; the key names the later one. */
  lemma DoubleSteal(s: State, a: Pid, b: Pid)
    requires a != b && s.P(a).main == Outside && s.P(b).main == Outside && !s.db.AliveLive()
    ensures var t := After(s, DoubleAcquire(a, b));
            && t.P(a) == s.P(a).(main := Starting) && t.P(b) == s.P(b).(main := Starting) && t.db.OwnedBy(b)
            && forall p :: p != a && p != b ==> t.P(p) == s.P(p)
  {
    var first := [TryAcquire(a), TryAcquire(b), ReadAlive(a, true)];
    AfterConcat(s, first, [ReadAlive(b, true), StealKey(a), StealKey(b)]);
    Unfold3(s, TryAcquire(a), TryAcquire(b), ReadAlive(a, true));
    FirstHalf(s, a, b);
    var m := After(s, first);
    Unfold3(m, ReadAlive(b, true), StealKey(a), StealKey(b));
    SecondHalf(m, a, b);
  }

  lemma FirstHalf(s: State, a: Pid, b: Pid)
    requires a != b && s.P(a).main == Outside && s.P(b).main == Outside && !s.db.AliveLive()
    ensures var m := Step(Step(Step(s, TryAcquire(a)), TryAcquire(b)), ReadAlive(a, true));
            && m.P(a) == s.P(a).(main := if s.db.KeyLive() then Steal else Starting)
            && m.P(b) == s.P(b).(main := CheckAlive) && m.db.KeyLive() && !m.db.AliveLive()
            && forall p :: p != a && p != b ==> m.P(p) == s.P(p)
  {
  }

  lemma SecondHalf(m: State, a: Pid, b: Pid)
    requires a != b && (m.P(a).main == Steal || m.P(a).main == Starting) && m.P(b).main == CheckAlive
    requires !m.db.AliveLive()
    ensures var t := Step(Step(Step(m, ReadAlive(b, true)), StealKey(a)), StealKey(b));
            && t.P(a) == m.P(a).(main := Starting) && t.P(b) == m.P(b).(main := Starting) && t.db.OwnedBy(b)
            && forall p :: p != a && p != b ==> t.P(p) == m.P(p)
  {
  }

  /** Waiting until the mark is gone costs no more than the mark has left. */
  lemma BothAfterTheMark(s: State, a: Pid, b: Pid, t: real)
    requires a != b && s.P(a).main == Outside && s.P(b).main == Outside && t >= 0.0 && !MarkOutlives(s.db, t)
    ensures BothCanAcquire(s, a, b, t)
  {
    var wait := if s.db.AliveLive() then s.db.alive.value - s.db.now else 0.0;
    var es := [Tick(wait)] + DoubleAcquire(a, b);
    assert es[1..] == DoubleAcquire(a, b);
    DoubleSteal(Step(s, Tick(wait)), a, b);
    TakesNoTime(DoubleAcquire(a, b));
    assert Acquiring(es, a, b);
  }

  lemma {:induction false} TakesNoTime(es: seq<Event>)
    requires forall k :: 0 <= k < |es| ==> !es[k].Tick?
    ensures Elapsed(es) == 0.0
  {
    if es != [] { TakesNoTime(es[1..]); }
  }

  /** Under a lasting mark the second still gets in when the key of the first runs out. */
  lemma BothAfterTheKey(s: State, a: Pid, b: Pid, t: real)
    requires a != b && s.P(a).main == Outside && s.P(b).main == Outside && t >= KeyLeft(s.db) + SINGLETON_TTL
    ensures BothCanAcquire(s, a, b, t)
  {
    var wait := KeyLeft(s.db);
    var es := [Tick(wait)] + ([TryAcquire(a)] + [Tick(SINGLETON_TTL), TryAcquire(b)]);
    var s1 := Step(s, Tick(wait));
    var s2 := Step(s1, TryAcquire(a));
    assert s2.db.key == Some(Key(a, s1.db.now + SINGLETON_TTL)) && s2.P(a).main == Starting && s2.P(b) == s.P(b);
    Unfold2(s2, Tick(SINGLETON_TTL), TryAcquire(b), a);
    Unfold1(s1, TryAcquire(a), [Tick(SINGLETON_TTL), TryAcquire(b)], a);
    Unfold1(s, Tick(wait), [TryAcquire(a)] + [Tick(SINGLETON_TTL), TryAcquire(b)], a);
    ElapsedFour(Tick(wait), TryAcquire(a), Tick(SINGLETON_TTL), TryAcquire(b));
    assert Acquiring(es, a, b);
  }

  lemma ElapsedFour(a: Event, b: Event, c: Event, d: Event)
    requires a.Tick? && !b.Tick? && c.Tick? && !d.Tick?
    ensures Elapsed([a] + ([b] + [c, d])) == a.dt + c.dt
  {
    assert ([a] + ([b] + [c, d]))[1..] == [b] + [c, d] && ([b] + [c, d])[1..] == [c, d];
    assert [c, d][1..] == [d] && [d][1..] == [];
    assert Elapsed([d]) == Elapsed([]);
    assert Elapsed([c, d]) == c.dt + Elapsed([d]);
    assert Elapsed([b] + [c, d]) == Elapsed([c, d]);
  }

  /** Within t seconds two acquirers can both get in if and only if the alive mark does not outlast
      that time, or the time is enough for a key to run out after the first has taken it. */
  lemma BothCanAcquireIff(s: State, a: Pid, b: Pid, t: real)
    requires a != b && s.P(a).main == Outside && s.P(b).main == Outside && t >= 0.0
    ensures BothCanAcquire(s, a, b, t) <==> !MarkOutlives(s.db, t) || t >= KeyLeft(s.db) + SINGLETON_TTL
  {
    if !MarkOutlives(s.db, t) {
      BothAfterTheMark(s, a, b, t);
    } else if t >= KeyLeft(s.db) + SINGLETON_TTL {
      BothAfterTheKey(s, a, b, t);
    } else {
      forall es | Acquiring(es, a, b) && Elapsed(es) <= t
        ensures !(After(s, es).P(a).main == Starting && After(s, es).P(b).main == Starting)
      {
        OneAtMostStays(s, es, a, b, t);
      }
    }
  }

  // --- after a double steal --------------------------------------------------------------

  /** w owns the key; no other process, however far it got, is about to delete it. */
  ghost predicate Won(s: State, w: Pid) {
    && (s.P(w).main == Starting || s.P(w).main == Running) && !s.P(w).stop
    && (s.P(w).main == Starting ==> s.P(w).beat == Off)
    && (s.P(w).main == Running ==> s.P(w).beat != Off && s.P(w).beat != Retake)
    && s.db.key.Some? && s.db.key.value.owner == w
    && forall p :: p != w ==> !s.P(p).main.ReleaseDelete?
  }

  /** A double steal by two idle processes, with nobody about to delete the key, leaves the later
      one as the winner and the other as a loser. */
  lemma DoubleStealIsWon(s: State, a: Pid, b: Pid)
    requires a != b && s.P(a).main == Outside && !s.db.AliveLive()
    requires s.P(b).main == Outside && s.P(b).beat == Off && !s.P(b).stop
    requires forall p :: !s.P(p).main.ReleaseDelete?
    ensures var t := After(s, DoubleAcquire(a, b)); Won(t, b) && t.db.KeyLive() && t.P(a).main == Starting
  {
    DoubleSteal(s, a, b);
  }

  /** Nobody takes the key by acquiring, and the winner is left running. */
  predicate NoAcquire(e: Event, w: Pid) {
    !e.TryAcquire? && !e.StealKey? && e != Shutdown(w) && e != Crash(w)
  }

  predicate NoAcquireRun(es: seq<Event>, w: Pid) {
    forall k :: 0 <= k < |es| ==> NoAcquire(es[k], w)
  }

  lemma WonStep(s: State, e: Event, w: Pid)
    requires Won(s, w) && s.db.KeyLive() && NoAcquire(e, w)
    ensures Won(Step(s, e), w)
  {
    forall p | p != w ensures !Step(s, e).P(p).main.ReleaseDelete? {
      if e.Tick? || e.p != p { OthersStay(s, e, p); }
    }
    if !e.Tick? && e.p != w { OthersStay(s, e, w); }
  }

  /** After a double steal without further acquires the winner keeps the key: losers may beat,
      stop and release, and none of them deletes it or retakes it. */
  lemma {:induction false} WinnerKeepsKey(s: State, es: seq<Event>, w: Pid)
    requires Won(s, w) && NoAcquireRun(es, w) && UnexpiredRun(s, es)
    ensures Won(After(s, es), w) && After(s, es).db.OwnedBy(w)
    decreases |es|
  {
    if es != [] {
      assert NoAcquire(es[0], w);
      WonStep(s, es[0], w);
      WinnerKeepsKey(Step(s, es[0]), es[1..], w);
    }
  }

  ghost predicate WonForLong(s: State, w: Pid) {
    Won(s, w) && s.P(w).main == Running && s.P(w).marked <= s.db.now && Cushion(s, w)
  }

  lemma WonForLongStep(s: State, e: Event, w: Pid)
    requires WonForLong(s, w) && Punctual(s, w) && NoAcquire(e, w)
    ensures WonForLong(Step(s, e), w)
  {
    WonStep(s, e, w);
    if !e.Tick? && e.p != w { OthersStay(s, e, w); }
  }

  /** A punctual winner with its cushion never sees the key run out, so it keeps it for good. */
  lemma {:induction false} PunctualWinnerKeepsKey(s: State, es: seq<Event>, w: Pid)
    requires WonForLong(s, w) && NoAcquireRun(es, w) && PunctualRun(s, es, w)
    ensures UnexpiredRun(s, es) && After(s, es).db.OwnedBy(w) && After(s, es).P(w).main == Running
    decreases |es|
  {
    if es != [] {
      assert NoAcquire(es[0], w);
      WonForLongStep(s, es[0], w);
      PunctualWinnerKeepsKey(Step(s, es[0]), es[1..], w);
    }
  }

  predicate Dead(q: Process) {
    q.beat == Off && q.stop && q.main != Outside && q.main != CheckAlive && q.main != Steal && q.main != Starting
  }

  lemma {:induction false} DeadStaysDead(s: State, es: seq<Event>, p: Pid)
    requires Dead(s.P(p))
    ensures Dead(After(s, es).P(p))
    decreases |es|
  {
    if es != [] {
      if es[0].Tick? || es[0].p != p { OthersStay(s, es[0], p); }
      DeadStaysDead(Step(s, es[0]), es[1..], p);
    }
  }

  /** The heartbeat of a process that was told to stop marks nothing any more once it is between two
      turns, whatever happens. */
  lemma {:induction false} StoppedBeatMarksNoMore(s: State, es: seq<Event>, p: Pid)
    requires s.P(p).stop && (s.P(p).beat == Head || s.P(p).beat == Off)
    requires s.P(p).main != Outside && s.P(p).main != CheckAlive && s.P(p).main != Steal && s.P(p).main != Starting
    ensures var q := After(s, es).P(p);
            q.marked == s.P(p).marked && (q.beat == Head || q.beat == Off) && (BeatHead(p) in es ==> q.beat == Off)
    decreases |es|
  {
    if es != [] {
      if es[0].Tick? || es[0].p != p { OthersStay(s, es[0], p); }
      var s1 := Step(s, es[0]);
      StoppedBeatMarksNoMore(s1, es[1..], p);
      if es[0] == BeatHead(p) { DeadStaysDead(s1, es[1..], p); }
    }
  }

  /** A loser's heartbeat ends at its next look at the key, whenever in the run that is, and it
      never beats again. */
  lemma LoserStops(s: State, es: seq<Event>, later: seq<Event>, w: Pid, p: Pid, look: Event)
    requires Won(s, w) && p != w && NoAcquireRun(es, w) && UnexpiredRun(s, es)
    requires var q := After(s, es).P(p);
             q.main == Running && ((look == BeatRead(p) && q.beat == Read) || (look == BeatRetake(p) && q.beat == Retake))
    ensures Dead(After(s, es + [look] + later).P(p))
  {
    WinnerKeepsKey(s, es, w);
    AfterConcat(s, es, [look]);
    assert [look][1..] == [];
    assert After(After(s, es), [look]) == After(Step(After(s, es), look), []);
    AfterConcat(s, es + [look], later);
    DeadStaysDead(After(s, es + [look]), later, p);
  }

  /** What a stopping loser does delete is the winner's alive mark, so that the next acquirer
      takes the key from a running winner. */
  lemma LoserClearsTheMark(s: State, w: Pid, p: Pid, o: Pid)
    requires Won(s, w) && s.db.KeyLive() && w != p && w != o && p != o
    requires s.P(w).main == Running && s.P(p).main.Clearing? && s.P(o).main == CheckAlive
    ensures var t := After(s, [ClearAlive(p), ReadAlive(o, true), StealKey(o)]);
            t.db.OwnedBy(o) && t.P(o).main == Starting && t.P(w) == s.P(w)
  {
    Unfold3(s, ClearAlive(p), ReadAlive(o, true), StealKey(o));
  }

  // --- the two commands of a release -------------------------------------------------------

  /** A step that makes its process the owner of the key: a steal, or an acquire or a heartbeat
      that finds no live key. */
  predicate Takes(s: State, e: Event) {
    match e
    case StealKey(p) => s.P(p).main == Steal
    case TryAcquire(p) => s.P(p).main == Outside && !s.db.KeyLive()
    case BeatRetake(p) => s.P(p).beat == Retake && !s.db.KeyLive()
    case _ => false
  }

  /** Somebody takes the key in the course of a run. */
  predicate Taken(s: State, es: seq<Event>)
    decreases |es|
  {
    es != [] && (Takes(s, es[0]) || Taken(Step(s, es[0]), es[1..]))
  }

  /** Who holds the key after a run: whoever took it last, nobody if it was deleted since, or else
      the holder before it. */
  function LastHolder(s: State, es: seq<Event>, holder: Option<Pid>): Option<Pid>
    decreases |es|
  {
    if es == [] then holder
    else
      var e := es[0];
      LastHolder(Step(s, e), es[1..],
                 if Takes(s, e) then Some(e.p)
                 else if e.DeleteKey? && s.P(e.p).main.ReleaseDelete? then None
                 else holder)
  }

  function HolderOf(db: Db): Option<Pid> {
    if db.key.Some? then Some(db.key.value.owner) else None
  }

  /** A run between the two commands of p's release: anything but the second command and a crash of p. */
  predicate Between(es: seq<Event>, p: Pid) {
    forall k :: 0 <= k < |es| ==> es[k] != DeleteKey(p) && es[k] != Crash(p)
  }

  /** Nobody but p's own release deletes the key, and p takes no step. */
  predicate OthersOnlyTake(es: seq<Event>, p: Pid) {
    forall k :: 0 <= k < |es| ==> !es[k].DeleteKey? && (es[k].Tick? || es[k].p != p)
  }

  lemma {:induction false} HolderIsLast(s: State, es: seq<Event>, p: Pid)
    requires s.P(p).main.ReleaseDelete? && Between(es, p)
    ensures var t := After(s, es);
            HolderOf(t.db) == LastHolder(s, es, HolderOf(s.db)) && t.P(p).main == s.P(p).main
    decreases |es|
  {
    if es != [] {
      assert es[0] != DeleteKey(p) && es[0] != Crash(p);
      if es[0].Tick? || es[0].p != p { OthersStay(s, es[0], p); }
      HolderIsLast(Step(s, es[0]), es[1..], p);
    }
  }

  lemma {:induction false} OthersTake(s: State, es: seq<Event>, p: Pid, owner: Pid)
    requires OthersOnlyTake(es, p)
    ensures var holder := LastHolder(s, es, Some(owner));
            holder.Some? && (holder == Some(p) <==> owner == p && !Taken(s, es))
    decreases |es|
  {
    if es != [] {
      assert !es[0].DeleteKey? && (es[0].Tick? || es[0].p != p);
      OthersTake(Step(s, es[0]), es[1..], p, if Takes(s, es[0]) then es[0].p else owner);
    }
  }

  /** Between the commands of a release anything may happen, deletes by others included. What the
      second one deletes is the key of its last holder, if there is one then; when the others only
      take the key, that is another's if and only if somebody took it in between, by stealing it,
      expired or not, or by finding it expired. */
  lemma ReleaseDeletesAnothersKeyIff(s: State, p: Pid, es: seq<Event>)
    requires s.P(p).main.ReleaseRead? && s.db.OwnedBy(p) && Between(es, p)
    ensures var s1 := Step(s, ReadKey(p));
            var t := After(s1, es);
            && HolderOf(t.db) == LastHolder(s1, es, Some(p)) && Step(t, DeleteKey(p)).db.key.None?
            && (OthersOnlyTake(es, p) ==>
                  HolderOf(t.db).Some? && (HolderOf(t.db) != Some(p) <==> Taken(s1, es)))
  {
    var s1 := Step(s, ReadKey(p));
    HolderIsLast(s1, es, p);
    if OthersOnlyTake(es, p) { OthersTake(s1, es, p, p); }
  }

  /** With the alive mark cleared, as stopping does first, the key is stolen and deleted for its
      new owner without any time passing. */
  lemma ReleaseDeletesStolenKey(s: State, p: Pid, o: Pid)
    requires s.P(p).main.ReleaseRead? && s.db.OwnedBy(p) && !s.db.AliveLive() && s.P(o).main == Outside && p != o
    ensures var t := After(s, [ReadKey(p)] + [TryAcquire(o), ReadAlive(o, true), StealKey(o)]);
            && t.db.now == s.db.now && t.db.OwnedBy(o) && t.P(o).main == Starting
            && Step(t, DeleteKey(p)).db.key.None?
  {
    Unfold1(s, ReadKey(p), [TryAcquire(o), ReadAlive(o, true), StealKey(o)], p);
    Unfold3(Step(s, ReadKey(p)), TryAcquire(o), ReadAlive(o, true), StealKey(o));
  }

  /** A key that expires in between and is taken is deleted for its new owner as well. */
  lemma ReleaseDeletesRetakenKey(s: State, p: Pid, o: Pid)
    requires s.P(p).main.ReleaseDelete? && s.P(o).main == Outside && p != o && s.db.key.Some?
    ensures var wait := if s.db.KeyLive() then s.db.key.value.expires - s.db.now else 0.0;
            var t := After(s, [Tick(wait), TryAcquire(o), DeleteKey(p)]);
            t.P(o).main == Starting && t.db.key.None?
  {
    var wait := if s.db.KeyLive() then s.db.key.value.expires - s.db.now else 0.0;
    Unfold3(s, Tick(wait), TryAcquire(o), DeleteKey(p));
  }
}
