/**
  One canvas and any number of callers on the request and reply streams, one Redis command per
  step, with failed reads and failed replies wherever the source has to live with them.
 */
module CanvasRaces {
  import opened Wrappers
  import opened CanvasStreams

  /** Where the canvas is in a drain: about to read, or between two commands of its batch. */
  datatype Phase = Resting | Reading | Handling(next: nat, end: nat) | Replying(next: nat, end: nat)

  /** Where a caller is. Its cursor is how far it has read; `from` and `seen` are where its last
      read began and how many replies there were then. */
  datatype Caller =
    | Started
    | Cursored(cursor: nat)
    | Waiting(cursor: nat, from: nat, seen: nat)
    | Finished(answer: Answer, cursor: nat, from: nat, seen: nat)

  /** `attach` is where the canvas began to read, `outcomes` what the applied commands gave,
      `prior` the number of replies from before, and `origins` the commands the others answer. */
  datatype State = State(
    cmds: seq<Command>, canvas: Canvas, phase: Phase, callers: map<RequestId, Caller>,
    attach: nat, outcomes: seq<Outcome>, prior: nat, origins: seq<nat>)

  datatype Event =
    | NewCaller(id: RequestId)
    | ReadCursor(id: RequestId, ok: bool)
    | Append(id: RequestId, body: string)
    | ReadReplies(id: RequestId, ok: bool)
    | Deadline(id: RequestId)
    | Foreign(cmd: Command)
    | Drain(pingOk: bool, lastOk: bool)
    | ReadCommands(ok: bool)
    | Apply(outcome: Outcome)
    | SendReply(ok: bool)

  function Rest(next: nat, end: nat): Phase {
    if next < end then Handling(next, end) else Resting
  }

  /** One read of the reply stream, and the look through what it returned. */
  function ReadOnce(c: Caller, id: RequestId, replies: seq<Reply>): Caller
    requires c.Waiting?
  {
    if |replies| <= c.cursor then Waiting(c.cursor, c.cursor, |replies|)
    else
      var end := ReadEnd(c.cursor, |replies|);
      match FirstReply(replies, id, c.cursor, end)
      case Some(k) => Finished(Answered(replies[k].outcome), k + 1, c.cursor, |replies|)
      case None => Waiting(end, c.cursor, |replies|)
  }

  function WithCaller(s: State, id: RequestId, c: Caller): State {
    s.(callers := s.callers[id := c])
  }

  function CallerStep(s: State, e: Event): State
    requires e.ReadCursor? || e.Append? || e.ReadReplies? || e.Deadline?
  {
    if e.id !in s.callers then s
    else
      var c := s.callers[e.id];
      match e
      case ReadCursor(id, ok) =>
        if c.Started? then WithCaller(s, id, Cursored(if ok then |s.canvas.replies| else 0)) else s
      case Append(id, body) =>
        if c.Cursored?
        then WithCaller(s, id, Waiting(c.cursor, c.cursor, c.cursor)).(cmds := s.cmds + [Command(id, body)])
        else s
      case ReadReplies(id, ok) =>
        if !c.Waiting? then s
        else if !ok then WithCaller(s, id, Finished(Broken, c.cursor, c.from, c.seen))
        else WithCaller(s, id, ReadOnce(c, id, s.canvas.replies))
      case Deadline(id) =>
        if c.Waiting? then WithCaller(s, id, Finished(NoReply, c.cursor, c.from, c.seen)) else s
  }

  function CanvasStep(s: State, e: Event): State
    requires e.Drain? || e.ReadCommands? || e.Apply? || e.SendReply?
  {
    match e
    case Drain(pingOk, lastOk) =>
      if s.phase != Resting then s
      else
        var c := Connected(s.canvas, |s.cmds|, pingOk, lastOk);
        s.(canvas := c, phase := if c.connected then Reading else Resting,
           attach := if s.canvas.cursor.Unset? then |s.cmds| else s.attach)
    case ReadCommands(ok) =>
      if s.phase != Reading then s
      else if !ok then s.(canvas := s.canvas.(connected := false), phase := Resting)
      else if !s.canvas.cursor.At? then s.(phase := Resting)
      else s.(phase := Rest(s.canvas.cursor.n, ReadEnd(s.canvas.cursor.n, |s.cmds|)))
    case Apply(outcome) =>
      if !s.phase.Handling? then s
      else s.(canvas := s.canvas.(cursor := At(s.phase.next + 1), applied := s.canvas.applied + [s.phase.next]),
              outcomes := s.outcomes + [outcome],
              phase := Replying(s.phase.next, s.phase.end))
    case SendReply(ok) =>
      if !s.phase.Replying? || s.phase.next >= |s.cmds| || s.outcomes == [] then s
      else
        var rest := s.(phase := Rest(s.phase.next + 1, s.phase.end));
        if ok then
          rest.(canvas := s.canvas.(replies := s.canvas.replies
                                     + [ReplyTo(s.cmds[s.phase.next], s.outcomes[|s.outcomes| - 1])]),
                origins := s.origins + [s.phase.next])
        else rest.(canvas := s.canvas.(connected := false))
  }

  /** The id of a new caller is freshly drawn: nothing in either stream has it, and it is neither
      blank nor the stand-in for a blank one. Whatever else is appended does not use it. */
  predicate FreshId(s: State, id: RequestId) {
    && id != "" && id != "unknown" && id !in s.callers
    && (forall k :: 0 <= k < |s.cmds| ==> s.cmds[k].id != id)
    && (forall k :: 0 <= k < |s.canvas.replies| ==> s.canvas.replies[k].id != id)
  }

  function Step(s: State, e: Event): State {
    if e.NewCaller? then (if FreshId(s, e.id) then WithCaller(s, e.id, Started) else s)
    else if e.Foreign? then (if e.cmd.id in s.callers then s else s.(cmds := s.cmds + [e.cmd]))
    else if e.ReadCursor? || e.Append? || e.ReadReplies? || e.Deadline? then CallerStep(s, e)
    else CanvasStep(s, e)
  }

  function After(s: State, es: seq<Event>): State {
    if es == [] then s else Step(After(s, es[..|es| - 1]), es[|es| - 1])
  }

  // --- undisturbed steps are the whole operations -----------------------------------------

  /** Applying a command and replying to it are one turn of the drain's loop. */
  lemma HandleIsItsSteps(s: State, w: World, p: nat, ok: bool)
    requires s.phase.Handling? && s.phase.next == p < |s.cmds| <= |w.outcomes| && (p in w.sent <==> ok)
    ensures var t := Step(Step(s, Apply(w.outcomes[p])), SendReply(ok));
            t.canvas == HandleOne(s.canvas, s.cmds, p, w) && t.phase == Rest(p + 1, s.phase.end)
  {
  }

  /** One command of the batch: applied, and replied to if that can be done. */
  function Turn(s: State, w: World): State {
    if s.phase.Handling? && s.phase.next < |w.outcomes|
    then Step(Step(s, Apply(w.outcomes[s.phase.next])), SendReply(s.phase.next in w.sent))
    else s
  }

  function Turns(s: State, w: World, n: nat): State {
    if n == 0 then s else Turn(Turns(s, w, n - 1), w)
  }

  lemma TurnHandles(s: State, w: World, p: nat, hi: nat)
    requires s.phase == Handling(p, hi) && p < hi <= |s.cmds| <= |w.outcomes|
    ensures var t := Turn(s, w);
            t.canvas == HandleOne(s.canvas, s.cmds, p, w) && t.phase == Rest(p + 1, hi) && t.cmds == s.cmds
  {
    HandleIsItsSteps(s, w, p, p in w.sent);
  }

  lemma {:induction false} TurnsAreTheBatch(s: State, w: World, lo: nat, hi: nat, n: nat)
    requires s.phase == Rest(lo, hi) && lo + n <= hi <= |s.cmds| <= |w.outcomes|
    ensures var t := Turns(s, w, n);
            t.canvas == HandleUpTo(s.canvas, s.cmds, lo, lo + n, w) && t.phase == Rest(lo + n, hi) && t.cmds == s.cmds
  {
    if n > 0 {
      TurnsAreTheBatch(s, w, lo, hi, n - 1);
      TurnHandles(Turns(s, w, n - 1), w, lo + n - 1, hi);
    }
  }

  /** What connecting and reading leave to be done. */
  lemma ReadingBegins(s: State, w: World, pingOk: bool, lastOk: bool, readOk: bool)
    requires s.phase == Resting && |s.cmds| <= |w.outcomes| && (s.canvas.connected ==> !s.canvas.cursor.Unset?)
    ensures var s1 := Step(Step(s, Drain(pingOk, lastOk)), ReadCommands(readOk));
            var t := Drained(s.canvas, s.cmds, w, pingOk, lastOk, readOk);
            && s1.cmds == s.cmds
            && (s1.phase == Resting ==> t == s1.canvas)
            && (s1.phase != Resting ==>
                  && s1.phase.Handling? && s1.phase.next < s1.phase.end <= |s.cmds|
                  && t == HandleUpTo(s1.canvas, s.cmds, s1.phase.next, s1.phase.end, w))
  {
  }

  /** Connecting, reading and the turns of the batch read, with nobody in between, are the whole drain. */
  lemma DrainIsItsSteps(s: State, w: World, pingOk: bool, lastOk: bool, readOk: bool)
    requires s.phase == Resting && |s.cmds| <= |w.outcomes| && (s.canvas.connected ==> !s.canvas.cursor.Unset?)
    ensures var s1 := Step(Step(s, Drain(pingOk, lastOk)), ReadCommands(readOk));
            var n := if s1.phase.Handling? && s1.phase.next < s1.phase.end then s1.phase.end - s1.phase.next else 0;
            var t := Turns(s1, w, n);
            t.canvas == Drained(s.canvas, s.cmds, w, pingOk, lastOk, readOk) && t.phase == Resting
  {
    var s1 := Step(Step(s, Drain(pingOk, lastOk)), ReadCommands(readOk));
    ReadingBegins(s, w, pingOk, lastOk, readOk);
    FinishBatch(s1, w);
  }

  lemma FinishBatch(s: State, w: World)
    requires |s.cmds| <= |w.outcomes|
    requires s.phase == Resting || (s.phase.Handling? && s.phase.next < s.phase.end <= |s.cmds|)
    ensures s.phase == Resting ==> Turns(s, w, 0) == s
    ensures s.phase.Handling? ==>
              var t := Turns(s, w, s.phase.end - s.phase.next);
              t.canvas == HandleUpTo(s.canvas, s.cmds, s.phase.next, s.phase.end, w) && t.phase == Resting
  {
    if s.phase.Handling? { TurnsAreTheBatch(s, w, s.phase.next, s.phase.end, s.phase.end - s.phase.next); }
  }

  /** One read is one round of the wait: either it answers, or waiting goes on from where it ended. */
  lemma ReadIsOneRound(c: Caller, id: RequestId, replies: seq<Reply>, later: seq<ReadResult>)
    requires c.Waiting?
    ensures var t := ReadOnce(c, id, replies);
            WaitReply(id, c.cursor, [Some(replies)] + later)
            == if t.Finished? then t.answer else WaitReply(id, t.cursor, later)
  {
    assert ([Some(replies)] + later)[1..] == later;
  }

  // --- what every run keeps ---------------------------------------------------------------

  /** The canvas has applied every command from where it attached to where it is, in order. */
  predicate InOrder(s: State) {
    var c := s.canvas;
    && |s.outcomes| == |c.applied|
    && (if c.cursor.At? then s.attach <= c.cursor.n <= |s.cmds| && c.applied == Places(s.attach, c.cursor.n)
        else c.applied == [] && !s.phase.Handling? && !s.phase.Replying?)
    && (s.phase.Handling? ==> s.phase.next == c.cursor.n && s.phase.next < s.phase.end <= |s.cmds|)
    && (s.phase.Replying? ==> c.cursor.n == s.phase.next + 1 && s.phase.next < s.phase.end <= |s.cmds| && s.attach <= s.phase.next)
    && (c.cursor.Unset? ==> s.phase == Resting && !c.connected)
  }

  /** A reply answers the command at o, with what applying that command gave. */
  predicate AnswersAt(cmds: seq<Command>, outcomes: seq<Outcome>, attach: nat, o: nat, r: Reply) {
    attach <= o < attach + |outcomes| && o < |cmds| && r == ReplyTo(cmds[o], outcomes[o - attach])
  }

  predicate Answers(cmds: seq<Command>, outcomes: seq<Outcome>, attach: nat, origins: seq<nat>, sent: seq<Reply>) {
    |origins| == |sent| && forall i :: 0 <= i < |origins| ==> AnswersAt(cmds, outcomes, attach, origins[i], sent[i])
  }

  predicate Rising(origins: seq<nat>, below: nat) {
    && (forall i :: 0 <= i < |origins| ==> origins[i] < below)
    && (forall i, j :: 0 <= i < j < |origins| ==> origins[i] < origins[j])
  }

  /** Every reply since the start answers one applied command, later replies later commands. */
  predicate RepliesAnswer(s: State) {
    && s.prior <= |s.canvas.replies|
    && Answers(s.cmds, s.outcomes, s.attach, s.origins, s.canvas.replies[s.prior..])
    && Rising(s.origins, if s.phase.Replying? then s.phase.next else s.attach + |s.outcomes|)
  }

  predicate NoneBefore(replies: seq<Reply>, id: RequestId, n: nat) {
    n <= |replies| && forall k :: 0 <= k < n ==> replies[k].id != id
  }

  /** What holds of one caller. */
  ghost predicate CallerOk(cmds: seq<Command>, replies: seq<Reply>, id: RequestId, c: Caller) {
    && id != "" && id != "unknown"
    && (forall i, j :: 0 <= i < j < |cmds| ==> !(cmds[i].id == id && cmds[j].id == id))
    && match c
       case Started => NoneBefore(replies, id, |replies|) && forall k :: 0 <= k < |cmds| ==> cmds[k].id != id
       case Cursored(cursor) =>
         cursor <= |replies| && NoneBefore(replies, id, |replies|) && forall k :: 0 <= k < |cmds| ==> cmds[k].id != id
       case Waiting(cursor, from, seen) =>
         NoneBefore(replies, id, cursor) && cursor <= seen <= |replies| && (cursor == seen || cursor == from + BATCH)
       case Finished(answer, cursor, from, seen) =>
         if answer.Answered? then exists k :: 0 <= k < |replies| && replies[k] == Reply(id, answer.outcome)
         else NoneBefore(replies, id, cursor) && cursor <= seen <= |replies| && (cursor == seen || cursor == from + BATCH)
  }

  ghost predicate Inv(s: State) {
    && InOrder(s) && RepliesAnswer(s)
    && (forall id :: id in s.callers ==> CallerOk(s.cmds, s.canvas.replies, id, s.callers[id]))
    && (forall k, id :: 0 <= k < s.prior && k < |s.canvas.replies| && id in s.callers ==> s.canvas.replies[k].id != id)
  }

  /** Streams as they may be, a canvas that has not connected yet, and no caller. */
  predicate Init(s: State) {
    && s.canvas == Canvas(false, Unset, [], s.canvas.replies) && s.phase == Resting && s.callers == map[]
    && s.outcomes == [] && s.origins == [] && s.prior == |s.canvas.replies|
  }

  lemma CanvasStepInOrder(s: State, e: Event)
    requires InOrder(s) && (e.Drain? || e.ReadCommands? || e.Apply? || e.SendReply?)
    ensures InOrder(CanvasStep(s, e))
  {
  }

  lemma SomethingApplied(cmds: seq<Command>, outcomes: seq<Outcome>, attach: nat, origins: seq<nat>, sent: seq<Reply>)
    requires Answers(cmds, outcomes, attach, origins, sent) && origins != []
    ensures outcomes != []
  {
    assert AnswersAt(cmds, outcomes, attach, origins[0], sent[0]);
  }

  lemma DrainKeepsReplies(s: State, e: Event)
    requires InOrder(s) && RepliesAnswer(s) && (e.Drain? || e.ReadCommands?)
    ensures RepliesAnswer(CanvasStep(s, e))
  {
    if e.Drain? && s.canvas.cursor.Unset? && s.origins != [] {
      SomethingApplied(s.cmds, s.outcomes, s.attach, s.origins, s.canvas.replies[s.prior..]);
    }
  }

  lemma MoreOutcomes(cmds: seq<Command>, outcomes: seq<Outcome>, x: Outcome, attach: nat, origins: seq<nat>, sent: seq<Reply>)
    requires Answers(cmds, outcomes, attach, origins, sent)
    ensures Answers(cmds, outcomes + [x], attach, origins, sent)
  {
    forall i | 0 <= i < |origins| ensures AnswersAt(cmds, outcomes + [x], attach, origins[i], sent[i]) {
      assert AnswersAt(cmds, outcomes, attach, origins[i], sent[i]);
    }
  }

  lemma MoreCommands(cmds: seq<Command>, x: Command, outcomes: seq<Outcome>, attach: nat, origins: seq<nat>, sent: seq<Reply>)
    requires Answers(cmds, outcomes, attach, origins, sent)
    ensures Answers(cmds + [x], outcomes, attach, origins, sent)
  {
    forall i | 0 <= i < |origins| ensures AnswersAt(cmds + [x], outcomes, attach, origins[i], sent[i]) {
      assert AnswersAt(cmds, outcomes, attach, origins[i], sent[i]);
    }
  }

  lemma MoreReplies(cmds: seq<Command>, outcomes: seq<Outcome>, attach: nat, origins: seq<nat>, sent: seq<Reply>, o: nat, r: Reply)
    requires Answers(cmds, outcomes, attach, origins, sent) && Rising(origins, o)
    requires AnswersAt(cmds, outcomes, attach, o, r)
    ensures Answers(cmds, outcomes, attach, origins + [o], sent + [r]) && Rising(origins + [o], o + 1)
  {
    forall i | 0 <= i < |origins + [o]|
      ensures AnswersAt(cmds, outcomes, attach, (origins + [o])[i], (sent + [r])[i])
    {
      if i < |origins| { assert AnswersAt(cmds, outcomes, attach, origins[i], sent[i]); }
    }
  }

  lemma ApplyKeepsReplies(s: State, outcome: Outcome)
    requires InOrder(s) && RepliesAnswer(s)
    ensures RepliesAnswer(CanvasStep(s, Apply(outcome)))
  {
    if s.phase.Handling? {
      assert s.attach + |s.outcomes| == s.phase.next;
      MoreOutcomes(s.cmds, s.outcomes, outcome, s.attach, s.origins, s.canvas.replies[s.prior..]);
    }
  }

  lemma SendKeepsReplies(s: State, ok: bool)
    requires InOrder(s) && RepliesAnswer(s)
    ensures RepliesAnswer(CanvasStep(s, SendReply(ok)))
  {
    if s.phase.Replying? {
      assert s.attach + |s.outcomes| == s.phase.next + 1;
      var r := ReplyTo(s.cmds[s.phase.next], s.outcomes[|s.outcomes| - 1]);
      MoreReplies(s.cmds, s.outcomes, s.attach, s.origins, s.canvas.replies[s.prior..], s.phase.next, r);
      assert (s.canvas.replies + [r])[s.prior..] == s.canvas.replies[s.prior..] + [r];
    }
  }

  lemma CanvasStepReplies(s: State, e: Event)
    requires InOrder(s) && RepliesAnswer(s) && (e.Drain? || e.ReadCommands? || e.Apply? || e.SendReply?)
    ensures RepliesAnswer(CanvasStep(s, e))
  {
    match e
    case Apply(outcome) => ApplyKeepsReplies(s, outcome);
    case SendReply(ok) => SendKeepsReplies(s, ok);
    case Drain(_, _) => DrainKeepsReplies(s, e);
    case ReadCommands(_) => DrainKeepsReplies(s, e);
  }

  /** A reply with a caller's id answers the command with that id. */
  lemma ReplyIsToItsCommand(s: State, id: RequestId, k: nat)
    requires RepliesAnswer(s) && id != "" && id != "unknown"
    requires s.prior <= k < |s.canvas.replies| && s.canvas.replies[k].id == id
    ensures var p := s.origins[k - s.prior];
            && s.attach <= p < s.attach + |s.outcomes| && p < |s.cmds| && s.cmds[p].id == id
            && s.canvas.replies[k].outcome == s.outcomes[p - s.attach]
  {
    assert AnswersAt(s.cmds, s.outcomes, s.attach, s.origins[k - s.prior], s.canvas.replies[s.prior..][k - s.prior]);
  }

  // --- the callers --------------------------------------------------------------------------

  /** Replies appended for others, or to a caller that is still waiting, leave it as it should be. */
  lemma ReplyKeepsCaller(cmds: seq<Command>, replies: seq<Reply>, r: Reply, id: RequestId, c: Caller)
    requires CallerOk(cmds, replies, id, c)
    requires r.id == id ==> exists k :: 0 <= k < |cmds| && cmds[k].id == id
    ensures CallerOk(cmds, replies + [r], id, c)
  {
    if c.Finished? && c.answer.Answered? {
      var k :| 0 <= k < |replies| && replies[k] == Reply(id, c.answer.outcome);
      assert (replies + [r])[k] == Reply(id, c.answer.outcome);
    }
  }

  lemma CommandKeepsCaller(cmds: seq<Command>, x: Command, replies: seq<Reply>, id: RequestId, c: Caller)
    requires CallerOk(cmds, replies, id, c) && x.id != id
    ensures CallerOk(cmds + [x], replies, id, c)
  {
  }

  lemma OwnCommandMakesWaiting(cmds: seq<Command>, body: string, replies: seq<Reply>, id: RequestId, cursor: nat)
    requires CallerOk(cmds, replies, id, Cursored(cursor))
    ensures CallerOk(cmds + [Command(id, body)], replies, id, Waiting(cursor, cursor, cursor))
  {
  }

  lemma ReadKeepsCaller(cmds: seq<Command>, replies: seq<Reply>, id: RequestId, c: Caller)
    requires CallerOk(cmds, replies, id, c) && c.Waiting?
    ensures CallerOk(cmds, replies, id, ReadOnce(c, id, replies))
  {
  }

  lemma CanvasStepCallers(s: State, e: Event, id: RequestId)
    requires Inv(s) && id in s.callers && (e.Drain? || e.ReadCommands? || e.Apply? || e.SendReply?)
    ensures CanvasStep(s, e).callers == s.callers && CanvasStep(s, e).cmds == s.cmds
    ensures CallerOk(s.cmds, CanvasStep(s, e).canvas.replies, id, s.callers[id])
  {
    assert CallerOk(s.cmds, s.canvas.replies, id, s.callers[id]);
    if e == SendReply(true) && s.phase.Replying? && s.phase.next < |s.cmds| && s.outcomes != [] {
      var r := ReplyTo(s.cmds[s.phase.next], s.outcomes[|s.outcomes| - 1]);
      ReplyKeepsCaller(s.cmds, s.canvas.replies, r, id, s.callers[id]);
    }
  }

  lemma CanvasStepKeeps(s: State, e: Event)
    requires Inv(s) && (e.Drain? || e.ReadCommands? || e.Apply? || e.SendReply?)
    ensures Inv(CanvasStep(s, e))
  {
    CanvasStepInOrder(s, e);
    CanvasStepReplies(s, e);
    forall id | id in s.callers
      ensures CanvasStep(s, e).callers == s.callers && CanvasStep(s, e).cmds == s.cmds
      ensures CallerOk(s.cmds, CanvasStep(s, e).canvas.replies, id, s.callers[id])
    {
      CanvasStepCallers(s, e, id);
    }
  }

  /** The canvas has not read a command just appended. */
  lemma AppendKeeps(s: State, x: Command)
    requires InOrder(s) && RepliesAnswer(s)
    ensures InOrder(s.(cmds := s.cmds + [x])) && RepliesAnswer(s.(cmds := s.cmds + [x]))
  {
    MoreCommands(s.cmds, x, s.outcomes, s.attach, s.origins, s.canvas.replies[s.prior..]);
  }

  lemma ForeignKeeps(s: State, x: Command)
    requires Inv(s)
    ensures Inv(Step(s, Foreign(x)))
  {
    AppendKeeps(s, x);
    forall id | id in s.callers && x.id !in s.callers
      ensures CallerOk(s.cmds + [x], s.canvas.replies, id, s.callers[id])
    {
      CommandKeepsCaller(s.cmds, x, s.canvas.replies, id, s.callers[id]);
    }
  }

  lemma CallerAppendKeeps(s: State, id: RequestId, body: string)
    requires Inv(s) && id in s.callers && s.callers[id].Cursored?
    ensures Inv(CallerStep(s, Append(id, body)))
  {
    var x := Command(id, body);
    AppendKeeps(s, x);
    OwnCommandMakesWaiting(s.cmds, body, s.canvas.replies, id, s.callers[id].cursor);
    forall o | o in s.callers && o != id ensures CallerOk(s.cmds + [x], s.canvas.replies, o, s.callers[o]) {
      CommandKeepsCaller(s.cmds, x, s.canvas.replies, o, s.callers[o]);
    }
  }

  lemma CallerMoves(s: State, id: RequestId, c: Caller)
    requires Inv(s) && id in s.callers && CallerOk(s.cmds, s.canvas.replies, id, c)
    ensures Inv(WithCaller(s, id, c))
  {
  }

  lemma CallerReadKeeps(s: State, e: Event)
    requires Inv(s) && (e.ReadCursor? || e.ReadReplies? || e.Deadline?)
    ensures Inv(CallerStep(s, e))
  {
    if e.id in s.callers {
      var id, c := e.id, s.callers[e.id];
      assert CallerOk(s.cmds, s.canvas.replies, id, c);
      if e.ReadCursor? && c.Started? {
        CallerMoves(s, id, Cursored(if e.ok then |s.canvas.replies| else 0));
      } else if e.ReadReplies? && c.Waiting? && e.ok {
        ReadKeepsCaller(s.cmds, s.canvas.replies, id, c);
        CallerMoves(s, id, ReadOnce(c, id, s.canvas.replies));
      } else if !e.ReadCursor? && c.Waiting? {
        CallerMoves(s, id, Finished(if e.Deadline? then NoReply else Broken, c.cursor, c.from, c.seen));
      }
    }
  }

  lemma StepKeeps(s: State, e: Event)
    requires Inv(s)
    ensures Inv(Step(s, e))
  {
    match e
    case NewCaller(id) => {}
    case Foreign(x) => ForeignKeeps(s, x);
    case Append(id, body) => if id in s.callers && s.callers[id].Cursored? { CallerAppendKeeps(s, id, body); }
    case ReadCursor(_, _) => CallerReadKeeps(s, e);
    case ReadReplies(_, _) => CallerReadKeeps(s, e);
    case Deadline(_) => CallerReadKeeps(s, e);
    case Drain(_, _) => CanvasStepKeeps(s, e);
    case ReadCommands(_) => CanvasStepKeeps(s, e);
    case Apply(_) => CanvasStepKeeps(s, e);
    case SendReply(_) => CanvasStepKeeps(s, e);
  }

  lemma {:induction false} RunKeeps(s: State, es: seq<Event>)
    requires Init(s)
    ensures Inv(After(s, es))
  {
    if es == [] {
      assert s.canvas.replies[s.prior..] == [];
    } else {
      RunKeeps(s, es[..|es| - 1]);
      StepKeeps(After(s, es[..|es| - 1]), es[|es| - 1]);
    }
  }

  // --- the results ----------------------------------------------------------------------------

  /** Every command from where the canvas attached is applied at most once, in order, with none
      passed over: those applied are exactly the ones from there to its cursor. */
  lemma CommandsAppliedInOrder(s: State, es: seq<Event>)
    requires Init(s)
    ensures var t := After(s, es);
            if t.canvas.cursor.At? then
              t.attach <= t.canvas.cursor.n <= |t.cmds| && t.canvas.applied == Places(t.attach, t.canvas.cursor.n)
            else t.canvas.applied == []
  {
    RunKeeps(s, es);
  }

  /** A canvas that reads from the newest entry never applies a command again, whatever arrives
      and however often it drains. */
  lemma {:induction false} DeafForever(s: State, es: seq<Event>)
    requires s.canvas.cursor == Newest && !s.phase.Handling? && !s.phase.Replying?
    ensures var t := After(s, es);
            && t.canvas.cursor == Newest && t.canvas.applied == s.canvas.applied && t.canvas.replies == s.canvas.replies
            && !t.phase.Handling? && !t.phase.Replying?
  {
    if es != [] { DeafForever(s, es[..|es| - 1]); }
  }

  /** Some run makes the canvas apply one more command. */
  ghost predicate CanApply(s: State) {
    exists es :: |After(s, es).canvas.applied| > |s.canvas.applied|
  }

  lemma {:induction false} AfterConcat(s: State, a: seq<Event>, b: seq<Event>)
    ensures After(s, a + b) == After(After(s, a), b)
  {
    if b == [] {
      assert a + b == a;
    } else {
      var n := |b| - 1;
      assert (a + b)[..|a + b| - 1] == a + b[..n];
      AfterConcat(s, a, b[..n]);
    }
  }

  lemma AfterFirst(s: State, e: Event, es: seq<Event>)
    ensures After(s, [e] + es) == After(Step(s, e), es)
  {
    AfterConcat(s, [e], es);
    assert [e][..0] == [];
  }

  /** Whether there is something to read for a canvas about to read. */
  predicate Behind(s: State) {
    s.phase == Reading && s.canvas.cursor.At? && s.canvas.cursor.n < |s.cmds|
  }

  lemma BehindApplies(s: State, outcome: Outcome)
    requires Behind(s)
    ensures After(s, [ReadCommands(true), Apply(outcome)]).canvas.applied == s.canvas.applied + [s.canvas.cursor.n]
  {
    var t := Step(s, ReadCommands(true));
    AfterFirst(s, ReadCommands(true), [Apply(outcome)]);
    AfterFirst(t, Apply(outcome), []);
    assert [ReadCommands(true)] + [Apply(outcome)] == [ReadCommands(true), Apply(outcome)];
    assert [Apply(outcome)] + [] == [Apply(outcome)];
  }

  /** A resting canvas that is not deaf connects, and applies whatever arrives next. */
  lemma RestingApplies(s: State, x: Command) returns (es: seq<Event>)
    requires InOrder(s) && s.phase == Resting && s.canvas.cursor != Newest && x.id !in s.callers
    ensures |After(s, es).canvas.applied| > |s.canvas.applied|
  {
    var t := Step(s, Drain(true, true));
    var u := Step(t, Foreign(x));
    assert u.canvas.applied == s.canvas.applied && Behind(u);
    BehindApplies(u, Result(""));
    var read := [ReadCommands(true), Apply(Result(""))];
    AfterFirst(t, Foreign(x), read);
    AfterFirst(s, Drain(true, true), [Foreign(x)] + read);
    es := [Drain(true, true)] + ([Foreign(x)] + read);
  }

  /** A canvas that is not deaf can be brought to rest, or applies a command on the way. */
  lemma ComesToRest(s: State) returns (es: seq<Event>)
    requires InOrder(s) && s.canvas.cursor != Newest
    ensures var t := After(s, es);
            || |t.canvas.applied| > |s.canvas.applied|
            || (InOrder(t) && t.phase == Resting && t.canvas.cursor != Newest
                && t.canvas.applied == s.canvas.applied && t.callers == s.callers)
  {
    match s.phase
    case Resting => es := [];
    case Handling(_, _) =>
      AfterFirst(s, Apply(Result("")), []);
      es := [Apply(Result(""))] + [];
    case Reading =>
      CanvasStepInOrder(s, ReadCommands(false));
      AfterFirst(s, ReadCommands(false), []);
      es := [ReadCommands(false)] + [];
    case Replying(_, _) =>
      var t := Step(s, SendReply(true));
      CanvasStepInOrder(s, SendReply(true));
      if t.phase.Handling? {
        AfterFirst(t, Apply(Result("")), []);
        AfterFirst(s, SendReply(true), [Apply(Result(""))] + []);
        es := [SendReply(true)] + ([Apply(Result(""))] + []);
      } else {
        AfterFirst(s, SendReply(true), []);
        es := [SendReply(true)] + [];
      }
  }

  /** In every reachable state the canvas can apply a command again if and only if it does not read
      from the newest entry. */
  lemma CanApplyIff(s: State)
    requires Inv(s)
    ensures CanApply(s) <==> s.canvas.cursor != Newest
  {
    if s.canvas.cursor == Newest {
      forall es ensures |After(s, es).canvas.applied| == |s.canvas.applied| { DeafForever(s, es); }
    } else {
      var first := ComesToRest(s);
      var t := After(s, first);
      if |t.canvas.applied| <= |s.canvas.applied| {
        forall id | id in s.callers ensures id != "" {
          assert CallerOk(s.cmds, s.canvas.replies, id, s.callers[id]);
        }
        var more := RestingApplies(t, Command("", ""));
        AfterConcat(s, first, more);
        assert |After(s, first + more).canvas.applied| > |s.canvas.applied|;
      }
    }
  }

  /** How the first drain that reached Redis found the end of the command stream, if there was one. */
  function FirstLook(es: seq<Event>): Option<bool> {
    if es == [] then None
    else
      var e := es[|es| - 1];
      match FirstLook(es[..|es| - 1])
      case Some(ok) => Some(ok)
      case None => if e.Drain? && e.pingOk then Some(e.lastOk) else None
  }

  /** Over every run from a fresh start the canvas goes deaf exactly when that first look fails. */
  lemma {:induction false} DeafIff(s: State, es: seq<Event>)
    requires Init(s)
    ensures After(s, es).canvas.cursor == Newest <==> FirstLook(es) == Some(false)
    ensures After(s, es).canvas.cursor == Unset <==> FirstLook(es) == None
  {
    if es != [] {
      var n := |es| - 1;
      DeafIff(s, es[..n]);
      RunKeeps(s, es[..n]);
      CursorStep(After(s, es[..n]), es[n]);
    }
  }

  /** From a fresh start, over every run: the canvas goes on serving if and only if the first drain
      that reached Redis did not fail to look at the end of the command stream. */
  lemma ServesIff(s: State, es: seq<Event>)
    requires Init(s)
    ensures CanApply(After(s, es)) <==> FirstLook(es) != Some(false)
  {
    RunKeeps(s, es);
    CanApplyIff(After(s, es));
    DeafIff(s, es);
  }

  /** The cursor is set by the first ping that succeeds, and after that only moves along. */
  lemma CursorStep(s: State, e: Event)
    requires InOrder(s)
    ensures var t := Step(s, e);
            && (s.canvas.cursor == Newest ==> t.canvas.cursor == Newest)
            && (s.canvas.cursor.At? ==> t.canvas.cursor.At?)
            && (s.canvas.cursor == Unset ==>
                  if e.Drain? && e.pingOk then t.canvas.cursor == if e.lastOk then At(|s.cmds|) else Newest
                  else t.canvas.cursor == Unset)
  {
  }

  lemma AppliedAt(s: State, p: nat)
    requires InOrder(s) && s.attach <= p < s.attach + |s.outcomes|
    ensures p in s.canvas.applied
  {
    assert s.canvas.applied[p - s.attach] == p;
  }

  lemma OriginOfAnswer(s: State, id: RequestId) returns (p: nat)
    requires Inv(s) && id in s.callers && s.callers[id].Finished? && s.callers[id].answer.Answered?
    ensures p < |s.cmds| && s.cmds[p].id == id && (forall q :: 0 <= q < |s.cmds| && s.cmds[q].id == id ==> q == p)
    ensures s.attach <= p < s.attach + |s.outcomes| && p in s.canvas.applied
    ensures s.callers[id].answer.outcome == s.outcomes[p - s.attach]
  {
    assert CallerOk(s.cmds, s.canvas.replies, id, s.callers[id]);
    var k :| 0 <= k < |s.canvas.replies| && s.canvas.replies[k] == Reply(id, s.callers[id].answer.outcome);
    ReplyIsToItsCommand(s, id, k);
    p := s.origins[k - s.prior];
    AppliedAt(s, p);
  }

  /** What a caller is answered is what applying its own command gave. */
  lemma AnswerIsOwn(s: State, es: seq<Event>, id: RequestId) returns (p: nat)
    requires Init(s)
    requires var t := After(s, es); id in t.callers && t.callers[id].Finished? && t.callers[id].answer.Answered?
    ensures var t := After(s, es);
            && p < |t.cmds| && t.cmds[p].id == id && (forall q :: 0 <= q < |t.cmds| && t.cmds[q].id == id ==> q == p)
            && t.attach <= p < t.attach + |t.outcomes| && p in t.canvas.applied
            && t.callers[id].answer.outcome == t.outcomes[p - t.attach]
  {
    RunKeeps(s, es);
    p := OriginOfAnswer(After(s, es), id);
  }

  /** A reply that was there when a caller read for the last time was missed only if that read
      came back full with sixteen replies to others: the cursor predates the command. */
  lemma MissedOnlyBehindABatch(s: State, es: seq<Event>, id: RequestId, k: nat)
    requires Init(s)
    requires var t := After(s, es);
             && id in t.callers && t.callers[id].Finished? && t.callers[id].answer == NoReply
             && k < |t.canvas.replies| && t.canvas.replies[k].id == id
    ensures var c := After(s, es).callers[id];
            k >= c.seen || (c.cursor == c.from + BATCH && c.cursor <= k)
  {
    RunKeeps(s, es);
    var t := After(s, es);
    assert CallerOk(t.cmds, t.canvas.replies, id, t.callers[id]);
  }

  /** A read finds the reply if and only if it is among the first sixteen after the cursor. */
  lemma ReadFindsIff(s: State, es: seq<Event>, id: RequestId, k: nat)
    requires Init(s)
    requires var t := After(s, es);
             && id in t.callers && t.callers[id].Waiting? && k < |t.canvas.replies| && t.canvas.replies[k].id == id
    ensures var t := After(s, es);
            var c := Step(t, ReadReplies(id, true)).callers[id];
            c.Finished? <==> k < t.callers[id].cursor + BATCH
  {
    RunKeeps(s, es);
    var t := After(s, es);
    assert CallerOk(t.cmds, t.canvas.replies, id, t.callers[id]);
    forall j | 0 <= j < |t.canvas.replies| && t.canvas.replies[j].id == id ensures j == k {
      OneReplyPerCaller(t, id, j, k);
    }
  }

  lemma OneReplyPerCaller(s: State, id: RequestId, j: nat, k: nat)
    requires Inv(s) && id in s.callers && j < |s.canvas.replies| && k < |s.canvas.replies|
    requires s.canvas.replies[j].id == id && s.canvas.replies[k].id == id
    ensures j == k
  {
    assert CallerOk(s.cmds, s.canvas.replies, id, s.callers[id]);
    ReplyIsToItsCommand(s, id, j);
    ReplyIsToItsCommand(s, id, k);
  }

  lemma AfterThree(s: State, a: Event, b: Event, c: Event)
    ensures After(s, [a, b, c]) == Step(Step(Step(s, a), b), c)
  {
    assert [a, b, c][..2] == [a, b] && [a, b][..1] == [a] && [a][..0] == [];
    assert After(s, [a]) == Step(After(s, []), a);
  }

  /** The canvas, attached just before the last command, takes it up and answers it. */
  lemma TakesUpLast(s: State, outcome: Outcome)
    requires s.phase == Reading && s.outcomes == [] && |s.cmds| > 0 && s.canvas.cursor == At(|s.cmds| - 1)
    ensures var t := Step(Step(Step(s, ReadCommands(true)), Apply(outcome)), SendReply(true));
            && t.callers == s.callers
            && t.canvas.replies == s.canvas.replies + [ReplyTo(s.cmds[|s.cmds| - 1], outcome)]
  {
    var n := |s.cmds| - 1;
    var t := Step(s, ReadCommands(true));
    assert t == s.(phase := Handling(n, n + 1));
    var u := Step(t, Apply(outcome));
    assert u.phase == Replying(n, n + 1) && u.outcomes == [outcome] && u.cmds == s.cmds;
  }

  lemma LastIsAnswered(s: State, outcome: Outcome)
    requires s.phase == Reading && s.outcomes == [] && |s.cmds| > 0 && s.canvas.cursor == At(|s.cmds| - 1)
    ensures var t := After(s, [ReadCommands(true), Apply(outcome), SendReply(true)]);
            && t.callers == s.callers
            && t.canvas.replies == s.canvas.replies + [ReplyTo(s.cmds[|s.cmds| - 1], outcome)]
  {
    TakesUpLast(s, outcome);
    AfterThree(s, ReadCommands(true), Apply(outcome), SendReply(true));
  }

  /** A caller that could not read the end of the reply stream starts at its beginning. */
  lemma AsksFirst(s: State, id: RequestId, body: string)
    requires FreshId(s, id)
    ensures var t := Step(Step(Step(s, NewCaller(id)), ReadCursor(id, false)), Append(id, body));
            t == s.(cmds := s.cmds + [Command(id, body)], callers := s.callers[id := Waiting(0, 0, 0)])
  {
    var t := WithCaller(s, id, Started);
    assert Step(s, NewCaller(id)) == t;
    assert Step(t, ReadCursor(id, false)) == WithCaller(t, id, Cursored(0));
  }

  lemma AsksFromTheBeginning(s: State, id: RequestId, body: string)
    requires FreshId(s, id)
    ensures var t := After(s, [NewCaller(id), ReadCursor(id, false), Append(id, body)]);
            t == s.(cmds := s.cmds + [Command(id, body)], callers := s.callers[id := Waiting(0, 0, 0)])
  {
    AsksFirst(s, id, body);
    AfterThree(s, NewCaller(id), ReadCursor(id, false), Append(id, body));
  }

  lemma ReadsOnlyOthers(s: State, id: RequestId)
    requires id in s.callers && s.callers[id] == Waiting(0, 0, 0) && |s.canvas.replies| > BATCH
    requires forall k :: 0 <= k < BATCH ==> s.canvas.replies[k].id != id
    ensures var t := Step(Step(Step(s, ReadReplies(id, true)), Deadline(id)), Deadline(id));
            t == s.(callers := s.callers[id := Finished(NoReply, BATCH, 0, |s.canvas.replies|)])
  {
    assert FirstReply(s.canvas.replies, id, 0, BATCH).None?;
  }

  lemma GivesUpAfterOthers(s: State, id: RequestId)
    requires id in s.callers && s.callers[id] == Waiting(0, 0, 0) && |s.canvas.replies| > BATCH
    requires forall k :: 0 <= k < BATCH ==> s.canvas.replies[k].id != id
    ensures var t := After(s, [ReadReplies(id, true), Deadline(id), Deadline(id)]);
            t == s.(callers := s.callers[id := Finished(NoReply, BATCH, 0, |s.canvas.replies|)])
  {
    ReadsOnlyOthers(s, id);
    AfterThree(s, ReadReplies(id, true), Deadline(id), Deadline(id));
  }

  lemma AttachesAtTheEnd(s: State)
    requires Init(s)
    ensures var t := After(s, [Drain(true, true)]);
            t == s.(canvas := Canvas(true, At(|s.cmds|), [], s.canvas.replies), phase := Reading, attach := |s.cmds|)
  {
    assert After(s, []) == s && [Drain(true, true)][..0] == [];
  }

  /** Sixteen replies to others are enough: they can be all that a first read returns, and the
      deadline can fall right after it, with the caller's own reply already in the stream. */
  lemma ReplyCanBeMissed(s: State, id: RequestId, body: string, outcome: Outcome) returns (es: seq<Event>)
    requires Init(s) && FreshId(s, id) && |s.canvas.replies| >= BATCH
    ensures var t := After(s, es);
            && id in t.callers && t.callers[id] == Finished(NoReply, BATCH, 0, |t.canvas.replies|)
            && t.canvas.replies == s.canvas.replies + [Reply(id, outcome)]
  {
    var attach := [Drain(true, true)];
    var ask := [NewCaller(id), ReadCursor(id, false), Append(id, body)];
    var answer := [ReadCommands(true), Apply(outcome), SendReply(true)];
    var last := [ReadReplies(id, true), Deadline(id), Deadline(id)];
    es := attach + (ask + (answer + last));
    AttachesAtTheEnd(s);
    var s0 := After(s, attach);
    AsksFromTheBeginning(s0, id, body);
    var s1 := After(s0, ask);
    LastIsAnswered(s1, outcome);
    var s2 := After(s1, answer);
    GivesUpAfterOthers(s2, id);
    AfterConcat(s, attach, ask + (answer + last));
    AfterConcat(s0, ask, answer + last);
    AfterConcat(s1, answer, last);
  }
}
