/**
  When the owner of the singleton key keeps it.

  A holder is punctual when less than five seconds pass between its alive marks. That is enough
  to keep the lease for ever if and only if the key has its cushion, the alive mark stands for
  the last mark, and no other process has got anywhere near the key or the mark.
 */
module LeaseSafety {
  import opened SupervisorLease

  // --- the punctual owner ----------------------------------------------------------

  predicate Beating(q: Process) {
    q.main == Running && !q.stop && (q.beat == Head || q.beat == Mark || q.beat == Read || q.beat == PushOut)
  }

  predicate Punctual(s: State, h: Pid) {
    s.db.now < s.P(h).marked + ALIVE_TTL
  }

  /** h runs and beats, and the key names it. */
  predicate Owner(s: State, h: Pid) {
    Beating(s.P(h)) && s.P(h).marked <= s.db.now && s.db.key.Some? && s.db.key.value.owner == h
  }

  /** Between a refresh and the next mark the key outlives the last mark by its full ten seconds,
      between a mark and the next refresh by five. */
  predicate Cushion(s: State, h: Pid)
    requires s.db.key.Some?
  {
    var beat := s.P(h).beat;
    s.db.key.value.expires >=
      s.P(h).marked + if beat == Head || beat == Mark then SINGLETON_TTL else ALIVE_TTL
  }

  /** The alive mark stands at least as long as h's last marking made it. */
  predicate MarkCovers(s: State, h: Pid) {
    s.db.alive.Some? && s.db.alive.value >= s.P(h).marked + ALIVE_TTL
  }

  /** The positions from which a process can still set or delete the key or clear the alive mark:
      about to steal, acquired, running, or stopping with a clear or a delete ahead of it. Where
      its heartbeat stands is no matter: while the owner's key lives, a beat of another process
      marks alive, pushes the key out or finds that it has lost. */
  predicate Rival(q: Process) {
    || q.main == Steal || q.main == Starting || q.main == Running
    || q.main.Clearing? || q.main == ReleaseRead(false) || q.main.ReleaseDelete?
  }

  ghost predicate NoRival(s: State, h: Pid) {
    forall p :: p != h ==> !Rival(s.P(p))
  }

  /** All of the cover but the cushion: what a lone acquirer has right after starting up. */
  ghost predicate Held(s: State, h: Pid) {
    Owner(s, h) && MarkCovers(s, h) && NoRival(s, h)
  }

  ghost predicate Covered(s: State, h: Pid) {
    Held(s, h) && Cushion(s, h)
  }

  /** Nothing stops or crashes the holder, and Redis answers whoever asks for the alive mark. */
  predicate Calm(e: Event, h: Pid) {
    e != Shutdown(h) && e != Crash(h) && !(e.ReadAlive? && !e.ok)
  }

  predicate CalmRun(es: seq<Event>, h: Pid) {
    forall k :: 0 <= k < |es| ==> Calm(es[k], h)
  }

  /** h is punctual in every state of the run. */
  predicate PunctualRun(s: State, es: seq<Event>, h: Pid)
    decreases |es|
  {
    Punctual(s, h) && (es != [] ==> PunctualRun(Step(s, es[0]), es[1..], h))
  }

  /** A step changes the standing of the process that takes it and of no other. */
  lemma OthersStay(s: State, e: Event, p: Pid)
    requires e.Tick? || e.p != p
    ensures Step(s, e).P(p) == s.P(p)
  {
  }

  lemma NoRivalArises(s: State, e: Event, p: Pid)
    requires !Rival(s.P(p)) && s.db.KeyLive() && !s.db.OwnedBy(p) && s.db.AliveLive() && !(e.ReadAlive? && !e.ok)
    ensures !Rival(Step(s, e).P(p))
  {
    if e.Tick? || e.p != p { OthersStay(s, e, p); }
  }

  lemma HeldStep(s: State, e: Event, h: Pid)
    requires Held(s, h) && s.db.KeyLive() && Punctual(s, h) && Calm(e, h)
    ensures Held(Step(s, e), h)
    ensures Cushion(s, h) ==> Cushion(Step(s, e), h)
    ensures e == BeatPushOut(h) && s.P(h).beat == PushOut ==> Cushion(Step(s, e), h)
  {
    forall p | p != h ensures !Rival(Step(s, e).P(p)) { NoRivalArises(s, e, p); }
    if !e.Tick? && e.p != h { OthersStay(s, e, h); assert !Rival(s.P(e.p)); }
  }

  /** The lease: as long as the holder is punctual, whatever the others do, it owns the unexpired
      key, its refresh never fails, and nobody else acquires or gets as far as stealing. */
  lemma {:induction false} HolderKeepsLease(s: State, es: seq<Event>, h: Pid)
    requires Covered(s, h) && CalmRun(es, h) && PunctualRun(s, es, h)
    ensures var t := After(s, es);
            && t.db.OwnedBy(h) && t.db.AliveLive() && Beating(t.P(h))
            && (forall p :: p != h ==> t.P(p).main != Steal && t.P(p).main != Starting && t.P(p).main != Running)
            && Covered(t, h)
    decreases |es|
  {
    if es != [] {
      assert Calm(es[0], h);
      HeldStep(s, es[0], h);
      HolderKeepsLease(Step(s, es[0]), es[1..], h);
    }
  }

  // --- each part of the cover is needed ----------------------------------------------

  /** Whatever happens while h is punctual, h owns the unexpired key. */
  ghost predicate SafeForever(s: State, h: Pid) {
    forall es :: CalmRun(es, h) && PunctualRun(s, es, h) ==> After(s, es).db.OwnedBy(h)
  }

  /** A calm run in which h is punctual, and after which o has the key. */
  ghost predicate Loses(s: State, es: seq<Event>, h: Pid, o: Pid) {
    CalmRun(es, h) && PunctualRun(s, es, h) && After(s, es).db.OwnedBy(o) && After(s, es).P(o).main == Starting
  }

  /** A calm run in which h is punctual, and after which it no longer has the key. */
  ghost predicate Unseats(s: State, es: seq<Event>, h: Pid) {
    CalmRun(es, h) && PunctualRun(s, es, h) && !After(s, es).db.OwnedBy(h)
  }

  lemma Unfold1(s: State, a: Event, rest: seq<Event>, h: Pid)
    ensures After(s, [a] + rest) == After(Step(s, a), rest)
    ensures PunctualRun(s, [a] + rest, h) <==> Punctual(s, h) && PunctualRun(Step(s, a), rest, h)
  {
    assert ([a] + rest)[1..] == rest;
  }

  lemma Unfold2(s: State, a: Event, b: Event, h: Pid)
    ensures After(s, [a, b]) == Step(Step(s, a), b)
    ensures PunctualRun(s, [a, b], h) <==> Punctual(s, h) && Punctual(Step(s, a), h) && Punctual(Step(Step(s, a), b), h)
  {
    Unfold1(s, a, [b], h);
    Unfold1(Step(s, a), b, [], h);
    assert [a] + [b] == [a, b] && [b] + [] == [b];
  }

  /** With its key running out before its alive mark, a punctual holder can lose it to a newcomer. */
  lemma KeyRunsOut(s: State, h: Pid, o: Pid) returns (es: seq<Event>)
    requires Owner(s, h) && Punctual(s, h) && o != h && s.P(o).main == Outside
    requires s.db.key.value.expires < s.P(h).marked + ALIVE_TTL
    ensures Loses(s, es, h, o)
  {
    var wait := if s.db.KeyLive() then s.db.key.value.expires - s.db.now else 0.0;
    es := [Tick(wait), TryAcquire(o)];
    Unfold2(s, es[0], es[1], h);
  }

  /** Between its marks a holder whose key is short of the cushion can mark itself alive in time,
      and so late that the key runs out before the mark does. */
  lemma LateMark(s: State, h: Pid) returns (wait: real)
    requires Owner(s, h) && Punctual(s, h) && !Cushion(s, h)
    requires s.db.key.value.expires >= s.P(h).marked + ALIVE_TTL
    ensures wait >= 0.0
    ensures var s1 := Step(s, Tick(wait));
            var s2 := Step(s1, BeatHead(h));
            var s3 := Step(s2, BeatMark(h));
            && Punctual(s1, h) && Punctual(s2, h) && Punctual(s3, h) && Owner(s3, h)
            && s3.db.key == s.db.key && s3.db.key.value.expires < s3.P(h).marked + ALIVE_TTL
            && forall p :: p != h ==> s3.P(p) == s.P(p)
  {
    var middle := (s.db.key.value.expires + s.P(h).marked) / 2.0;
    wait := if s.db.now < middle then middle - s.db.now else 0.0;
    var s1 := Step(s, Tick(wait));
    var s2 := Step(s1, BeatHead(h));
    forall p | p != h ensures Step(s2, BeatMark(h)).P(p) == s.P(p) {
      OthersStay(s, Tick(wait), p);
      OthersStay(s1, BeatHead(h), p);
      OthersStay(s2, BeatMark(h), p);
    }
  }

  /** With less than the cushion the lease can be lost although the holder is punctual. */
  lemma CushionTooThin(s: State, h: Pid, o: Pid) returns (es: seq<Event>)
    requires Owner(s, h) && Punctual(s, h) && !Cushion(s, h) && o != h && s.P(o).main == Outside
    ensures Loses(s, es, h, o)
  {
    if s.db.key.value.expires < s.P(h).marked + ALIVE_TTL {
      es := KeyRunsOut(s, h, o);
    } else {
      var wait := LateMark(s, h);
      var s1 := Step(s, Tick(wait));
      var s2 := Step(s1, BeatHead(h));
      var rest := KeyRunsOut(Step(s2, BeatMark(h)), h, o);
      Unfold1(s2, BeatMark(h), rest, h);
      Unfold1(s1, BeatHead(h), [BeatMark(h)] + rest, h);
      Unfold1(s, Tick(wait), [BeatHead(h)] + ([BeatMark(h)] + rest), h);
      es := [Tick(wait)] + ([BeatHead(h)] + ([BeatMark(h)] + rest));
    }
  }

  /** With no alive mark a newcomer has the key at once, expired or not. */
  lemma TakenAtOnce(s: State, h: Pid, o: Pid)
    requires Punctual(s, h) && !s.db.AliveLive() && o != h && s.P(o).main == Outside
    ensures Loses(s, [TryAcquire(o)] + [ReadAlive(o, true), StealKey(o)], h, o)
  {
    var s1 := Step(s, TryAcquire(o));
    assert s1.P(h) == s.P(h) && s1.db.now == s.db.now && s1.db.alive == s.db.alive;
    Unfold2(s1, ReadAlive(o, true), StealKey(o), h);
    Unfold1(s, TryAcquire(o), [ReadAlive(o, true), StealKey(o)], h);
  }

  /** With the alive mark gone before h's next one is due, a newcomer takes the key in time. */
  lemma MarkRunsOut(s: State, h: Pid, o: Pid) returns (es: seq<Event>)
    requires Punctual(s, h) && !MarkCovers(s, h) && o != h && s.P(o).main == Outside
    ensures Loses(s, es, h, o)
  {
    var wait := if s.db.AliveLive() then s.db.alive.value - s.db.now else 0.0;
    var theft := [TryAcquire(o)] + [ReadAlive(o, true), StealKey(o)];
    TakenAtOnce(Step(s, Tick(wait)), h, o);
    Unfold1(s, Tick(wait), theft, h);
    es := [Tick(wait)] + theft;
  }

  /** How many steps a rival is from setting the key, deleting it or clearing the mark. */
  function Away(m: Main): nat {
    match m
    case Starting => 3
    case Running => 2
    case Clearing(_) => 1
    case ReleaseRead(_) => 2
    case _ => 0
  }

  function NextOf(m: Main, p: Pid): Event {
    match m
    case Steal => StealKey(p)
    case Starting => Start(p)
    case Running => Shutdown(p)
    case Clearing(_) => ClearAlive(p)
    case ReleaseRead(_) => ReadKey(p)
    case _ => DeleteKey(p)
  }

  /** One step of a rival does its harm, or brings it closer to doing it. */
  lemma RivalStep(s: State, h: Pid, p: Pid)
    requires Owner(s, h) && Punctual(s, h) && p != h && Rival(s.P(p))
    ensures var e := NextOf(s.P(p).main, p);
            var t := Step(s, e);
            && Calm(e, h) && Punctual(t, h) && t.P(h) == s.P(h)
            && (Away(s.P(p).main) == 0 ==> !t.db.OwnedBy(h))
            && (Away(s.P(p).main) >= 1 ==> Owner(t, h))
            && (Away(s.P(p).main) == 1 ==> !MarkCovers(t, h))
            && (Away(s.P(p).main) >= 2 ==> Rival(t.P(p)) && Away(t.P(p).main) < Away(s.P(p).main))
  {
    OthersStay(s, NextOf(s.P(p).main, p), h);
  }

  /** A rival can unseat a punctual owner. */
  lemma {:induction false} RivalUnseats(s: State, h: Pid, p: Pid, o: Pid) returns (es: seq<Event>)
    requires Owner(s, h) && Punctual(s, h) && p != h && Rival(s.P(p))
    requires o != h && o != p && s.P(o).main == Outside
    ensures Unseats(s, es, h)
    decreases Away(s.P(p).main)
  {
    var e := NextOf(s.P(p).main, p);
    var t := Step(s, e);
    RivalStep(s, h, p);
    OthersStay(s, e, o);
    var rest: seq<Event> := [];
    if Away(s.P(p).main) == 1 {
      rest := MarkRunsOut(t, h, o);
    } else if Away(s.P(p).main) >= 2 {
      rest := RivalUnseats(t, h, p, o);
    }
    Unfold1(s, e, rest, h);
    es := [e] + rest;
  }

  lemma {:induction false} Unused(pids: set<Pid>) returns (o: Pid)
    ensures o !in pids && forall p :: p in pids ==> p < o
    decreases pids
  {
    if pids == {} {
      o := 0;
    } else {
      var p :| p in pids;
      var rest := pids - {p};
      var q := Unused(rest);
      assert pids == rest + {p};
      o := if q <= p then p + 1 else q;
    }
  }

  /** A punctual owner is safe for ever if and only if its key has the cushion, the alive mark
      covers its last one, and no other process is in a position to harm it. */
  lemma LeaseIsSafeIff(s: State, h: Pid)
    requires Owner(s, h) && Punctual(s, h)
    ensures SafeForever(s, h) <==> Cushion(s, h) && MarkCovers(s, h) && NoRival(s, h)
  {
    if Cushion(s, h) && MarkCovers(s, h) && NoRival(s, h) {
      forall es | CalmRun(es, h) && PunctualRun(s, es, h) ensures After(s, es).db.OwnedBy(h) {
        HolderKeepsLease(s, es, h);
      }
    } else {
      var es := UnseatingRun(s, h);
    }
  }

  lemma UnseatingRun(s: State, h: Pid) returns (es: seq<Event>)
    requires Owner(s, h) && Punctual(s, h) && !(Cushion(s, h) && MarkCovers(s, h) && NoRival(s, h))
    ensures Unseats(s, es, h)
  {
    var o := Unused(s.procs.Keys + {h});
    if !Cushion(s, h) {
      es := CushionTooThin(s, h, o);
    } else if !MarkCovers(s, h) {
      es := MarkRunsOut(s, h, o);
    } else {
      var p :| p != h && Rival(s.P(p));
      es := RivalUnseats(s, h, p, o);
    }
  }

  /** The key does not run out in any state of the run. */
  predicate UnexpiredRun(s: State, es: seq<Event>)
    decreases |es|
  {
    s.db.KeyLive() && (es != [] ==> UnexpiredRun(Step(s, es[0]), es[1..]))
  }

  /** A punctual holder without the cushion gains it with its first refresh, whatever the others
      do meanwhile, if the key lasts until then; from there on the lease is safe. */
  lemma {:induction false} FirstRefreshCovers(s: State, es: seq<Event>, h: Pid)
    requires Held(s, h) && CalmRun(es, h) && PunctualRun(s, es, h) && UnexpiredRun(s, es)
    requires After(s, es).P(h).beat == PushOut
    ensures Covered(Step(After(s, es), BeatPushOut(h)), h)
    decreases |es|
  {
    if es == [] {
      HeldStep(s, BeatPushOut(h), h);
    } else {
      assert Calm(es[0], h);
      HeldStep(s, es[0], h);
      FirstRefreshCovers(Step(s, es[0]), es[1..], h);
    }
  }

  /** Starting up puts an acquirer in place and marks it alive, but without the cushion: any time
      between acquiring and marking is missing from it. */
  lemma StartIsThin(s: State, h: Pid)
    requires s.P(h).main == Starting && !s.P(h).stop
    requires s.db.key.Some? && s.db.key.value.owner == h && s.db.key.value.expires <= s.db.now + SINGLETON_TTL
    ensures var t := Step(s, Start(h));
            && Owner(t, h) && MarkCovers(t, h)
            && (Cushion(t, h) <==> s.db.key.value.expires == s.db.now + SINGLETON_TTL)
  {
  }

  /** An acquirer takes the lease from a covered, punctual holder if and only if its read of the
      alive mark fails. */
  lemma AcquireStealsIff(s: State, h: Pid, o: Pid, readOk: bool)
    requires Covered(s, h) && Punctual(s, h) && o != h && s.P(o).main == Outside
    ensures var t := After(s, [TryAcquire(o), ReadAlive(o, readOk), StealKey(o)]);
            && (t.db.OwnedBy(o) <==> !readOk) && (t.db.OwnedBy(h) <==> readOk)
            && t.P(o).main == if readOk then Gone else Starting
  {
    Unfold3(s, TryAcquire(o), ReadAlive(o, readOk), StealKey(o));
  }
}
