/**
  Answering a question about a clone: one warm runner per session, an answer streamed as
  sentences, and exactly one final entry whatever the runner does.

  `HandleAsk` is the effect of one question as a function of what the runner yields. The
  manager (Redis) and the service (HTTP) are the two objects that have that effect.
 */
module CodeScope {
  import opened Wrappers
  import opened Text
  import opened Sentences

  type SessionId = string

  datatype SessionStatus = Idle | Cloning | Ready | Thinking | Errored

  /** A session record; `problem` says why the stored hash does not parse, if it does not. */
  datatype Session = Session(problem: Option<string>, clone: string, agentId: string, status: SessionStatus) {
    predicate Usable() {
      problem.None?
    }
  }

  datatype Ask = Ask(session: SessionId, question: string)

  datatype Answer = Answer(ask: Ask, text: string, final: bool, ok: bool)

  datatype Failure = StartupError(message: string) | RunError(message: string)

  datatype Ending = Done(agentId: string) | Raised(failure: Failure)

  /** Everything a runner yields for one question, and how it ends. */
  datatype Reply = Reply(chunks: seq<string>, ending: Ending)

  /** What one question meets: whether the clone is there, whether a runner can be built, and its reply. */
  datatype AskEnv = AskEnv(cloneExists: bool, factory: Option<Failure>, reply: Reply)

  datatype Runner = Runner(id: nat, cwd: string)

  /** Session records, published answers, cached runners, and the runners ever built or closed. */
  datatype Desk = Desk(
    sessions: map<SessionId, Session>,
    answers: seq<Answer>,
    runners: map<SessionId, Runner>,
    created: nat,
    closed: set<nat>)

  // --- what one question does --------------------------------------------------

  function SetStatus(d: Desk, sid: SessionId, status: SessionStatus): Desk {
    if sid in d.sessions then d.(sessions := d.sessions[sid := d.sessions[sid].(status := status)]) else d
  }

  function PublishError(d: Desk, ask: Ask, message: string): Desk {
    SetStatus(d.(answers := d.answers + [Answer(ask, message, true, false)]), ask.session, Errored)
  }

  function DropRunner(d: Desk, sid: SessionId): Desk {
    if sid in d.runners
    then d.(runners := d.runners - {sid}, closed := d.closed + {d.runners[sid].id})
    else d
  }

  predicate Reusable(d: Desk, sid: SessionId, clone: string) {
    sid in d.runners && d.runners[sid].cwd == clone
  }

  /** The cached runner if it works on this clone, else a new one in its place. */
  function RunnerFor(d: Desk, sid: SessionId, clone: string, factory: Option<Failure>): Desk {
    if Reusable(d, sid, clone) then d
    else
      var d1 := DropRunner(d, sid);
      if factory.Some? then d1
      else d1.(runners := d1.runners[sid := Runner(d1.created, clone)], created := d1.created + 1)
  }

  function Reason(failure: Failure): string {
    match failure
    case StartupError(m) => "The agent could not start: " + m
    case RunError(m) => "The agent failed: " + m
  }

  function NoSession(sid: SessionId): string {
    "No CodeScope session " + sid + ". Re-enter the repository URL."
  }

  function Unusable(sid: SessionId, session: Session): string {
    "Session " + sid + " is unusable: " + session.problem.GetOr("")
  }

  function MissingClone(clone: string): string {
    "Clone is missing at " + clone
  }

  /** A failure is answered; a runner that could not start is dropped so the next question gets a fresh one. */
  function Fail(d: Desk, ask: Ask, failure: Failure): Desk {
    var d1 := PublishError(d, ask, Reason(failure));
    if failure.StartupError? then DropRunner(d1, ask.session) else d1
  }

  function Spoken(ask: Ask, pieces: seq<string>): (answers: seq<Answer>)
    ensures |answers| == |pieces|
    ensures forall i :: 0 <= i < |pieces| ==> answers[i] == Answer(ask, pieces[i], false, true)
  {
    seq(|pieces|, i requires 0 <= i < |pieces| => Answer(ask, pieces[i], false, true))
  }

  lemma SpokenConcat(ask: Ask, a: seq<string>, b: seq<string>)
    ensures Spoken(ask, a + b) == Spoken(ask, a) + Spoken(ask, b)
  {
  }

  lemma SpeakMore(answers: seq<Answer>, ask: Ask, a: seq<string>, b: seq<string>)
    ensures answers + Spoken(ask, a) + Spoken(ask, b) == answers + Spoken(ask, a + b)
  {
    SpokenConcat(ask, a, b);
  }

  function Remember(d: Desk, sid: SessionId, agentId: string): Desk {
    if sid in d.sessions && agentId != "" then d.(sessions := d.sessions[sid := d.sessions[sid].(agentId := agentId)]) else d
  }

  /** The answer proper: sentences as they come, then exactly one final entry. */
  function Stream(d: Desk, ask: Ask, reply: Reply): Desk {
    var (pieces, rest) := FeedAll("", reply.chunks, MIN_SENTENCE_CHARS);
    var d1 := d.(answers := d.answers + Spoken(ask, pieces));
    match reply.ending
    case Raised(failure) => Fail(d1, ask, failure)
    case Done(agentId) =>
      var d2 := d1.(answers := d1.answers + [Answer(ask, Strip(rest), true, true)]);
      SetStatus(Remember(d2, ask.session, agentId), ask.session, Ready)
  }

  /** A question on a session that exists. */
  function Converse(d: Desk, ask: Ask, env: AskEnv): Desk
    requires ask.session in d.sessions
  {
    var clone := d.sessions[ask.session].clone;
    if !env.cloneExists then PublishError(d, ask, MissingClone(clone))
    else
      var d1 := SetStatus(d, ask.session, Thinking);
      var d2 := RunnerFor(d1, ask.session, clone, env.factory);
      if !Reusable(d1, ask.session, clone) && env.factory.Some? then Fail(d2, ask, env.factory.value)
      else Stream(d2, ask, env.reply)
  }

  /** One CODEQ:ASK entry; one that does not parse is only logged. */
  function HandleAsk(d: Desk, entry: Option<Ask>, env: AskEnv): Desk {
    if entry.None? then d
    else
      var ask := entry.value;
      if ask.session !in d.sessions then PublishError(d, ask, NoSession(ask.session))
      else if !d.sessions[ask.session].Usable() then PublishError(d, ask, Unusable(ask.session, d.sessions[ask.session]))
      else Converse(d, ask, env)
  }

  // --- exactly one final entry -------------------------------------------------

  /** `answers` is what `before` became by one question: sentences, then one final entry. */
  ghost predicate OneFinalLast(before: seq<Answer>, answers: seq<Answer>, ask: Ask) {
    && |before| < |answers| && before <= answers
    && answers[|answers| - 1].final
    && (forall i :: |before| <= i < |answers| ==> answers[i].ask == ask)
    && (forall i :: |before| <= i < |answers| - 1 ==> !answers[i].final && answers[i].ok && Speakable(answers[i].text))
  }

  /** The wire contract: only the final entry may be blank. */
  predicate Sendable(answer: Answer) {
    answer.final || !Blank(answer.text)
  }

  lemma SpeakableIsSendable(answer: Answer)
    requires answer.final || Speakable(answer.text)
    ensures Sendable(answer)
  {
    if !answer.final { StripRightKeeps(answer.text); }
  }

  lemma StripRightKeeps(s: string)
    requires Speakable(s)
    ensures Strip(s) == s
  {
  }

  /** Sessions and runners other than those of sid are the same in both. */
  ghost predicate OnlyTouches(d: Desk, t: Desk, sid: SessionId) {
    && t.sessions.Keys == d.sessions.Keys
    && (forall s :: s in d.sessions && s != sid ==> t.sessions[s] == d.sessions[s])
    && (forall s :: s != sid ==> (s in t.runners <==> s in d.runners))
    && (forall s :: s in d.runners && s != sid ==> t.runners[s] == d.runners[s])
  }

  /** What `more` entries at the end of t's answers say about the session. */
  ghost predicate Concluded(d: Desk, t: Desk, ask: Ask, spoken: seq<string>) {
    && OnlyTouches(d, t, ask.session)
    && |t.answers| == |d.answers| + |spoken| + 1
    && t.answers[..|t.answers| - 1] == d.answers + Spoken(ask, spoken)
    && var last := t.answers[|t.answers| - 1];
    last.final && last.ask == ask
    && (ask.session in t.sessions ==> t.sessions[ask.session].status == if last.ok then Ready else Errored)
  }

  lemma ErrorConcludes(d: Desk, ask: Ask, message: string)
    ensures Concluded(d, PublishError(d, ask, message), ask, [])
  {
    var t := PublishError(d, ask, message);
    assert t.answers[..|d.answers|] == d.answers + Spoken(ask, []);
  }

  lemma FailConcludes(d: Desk, ask: Ask, failure: Failure)
    ensures Concluded(d, Fail(d, ask, failure), ask, [])
    ensures !Fail(d, ask, failure).answers[|d.answers|].ok
  {
    ErrorConcludes(d, ask, Reason(failure));
  }

  lemma StreamConcludes(d: Desk, ask: Ask, reply: Reply)
    ensures var (pieces, rest) := FeedAll("", reply.chunks, MIN_SENTENCE_CHARS);
            var t := Stream(d, ask, reply);
            && Concluded(d, t, ask, pieces)
            && var last := t.answers[|t.answers| - 1];
            last.ok == reply.ending.Done? && (last.ok ==> last.text == Strip(rest))
  {
    var (pieces, rest) := FeedAll("", reply.chunks, MIN_SENTENCE_CHARS);
    var d1 := d.(answers := d.answers + Spoken(ask, pieces));
    var t := Stream(d, ask, reply);
    if reply.ending.Raised? {
      FailConcludes(d1, ask, reply.ending.failure);
      assert d1.answers + Spoken(ask, []) == d1.answers;
    } else {
      assert t.answers == d1.answers + [Answer(ask, Strip(rest), true, true)];
      assert t.answers[..|d1.answers|] == d1.answers;
    }
  }

  /** The sentences a question is answered with before the final entry. */
  function SpokenFor(d: Desk, ask: Ask, env: AskEnv): seq<string> {
    if ask.session in d.sessions && d.sessions[ask.session].Usable() then SpokenOn(d, ask, env) else []
  }

  function SpokenOn(d: Desk, ask: Ask, env: AskEnv): seq<string>
    requires ask.session in d.sessions
  {
    if env.cloneExists && (Reusable(d, ask.session, d.sessions[ask.session].clone) || env.factory.None?)
    then FeedAll("", env.reply.chunks, MIN_SENTENCE_CHARS).0
    else []
  }

  lemma RunnerForTouches(d: Desk, sid: SessionId, clone: string, factory: Option<Failure>)
    ensures var t := RunnerFor(SetStatus(d, sid, Thinking), sid, clone, factory);
            OnlyTouches(d, t, sid) && t.answers == d.answers
  {
  }

  lemma TouchesThenConcludes(d: Desk, d1: Desk, t: Desk, ask: Ask, spoken: seq<string>)
    requires OnlyTouches(d, d1, ask.session) && d1.answers == d.answers && Concluded(d1, t, ask, spoken)
    ensures Concluded(d, t, ask, spoken)
  {
  }

  lemma ConverseConcludes(d: Desk, ask: Ask, env: AskEnv)
    requires ask.session in d.sessions
    ensures Concluded(d, Converse(d, ask, env), ask, SpokenOn(d, ask, env))
  {
    var clone := d.sessions[ask.session].clone;
    if env.cloneExists {
      var d1 := SetStatus(d, ask.session, Thinking);
      var d2 := RunnerFor(d1, ask.session, clone, env.factory);
      RunnerForTouches(d, ask.session, clone, env.factory);
      var t := Converse(d, ask, env);
      if !Reusable(d1, ask.session, clone) && env.factory.Some? {
        FailConcludes(d2, ask, env.factory.value);
        TouchesThenConcludes(d, d2, t, ask, []);
      } else {
        StreamConcludes(d2, ask, env.reply);
        TouchesThenConcludes(d, d2, t, ask, FeedAll("", env.reply.chunks, MIN_SENTENCE_CHARS).0);
      }
    } else {
      ErrorConcludes(d, ask, MissingClone(clone));
    }
  }

  lemma HandleConcludes(d: Desk, ask: Ask, env: AskEnv)
    ensures Concluded(d, HandleAsk(d, Some(ask), env), ask, SpokenFor(d, ask, env))
  {
    if ask.session !in d.sessions { ErrorConcludes(d, ask, NoSession(ask.session)); }
    else if !d.sessions[ask.session].Usable() { ErrorConcludes(d, ask, Unusable(ask.session, d.sessions[ask.session])); }
    else { ConverseConcludes(d, ask, env); }
  }

  lemma ConcludedMeansOneFinal(d: Desk, t: Desk, ask: Ask, spoken: seq<string>)
    requires Concluded(d, t, ask, spoken)
    requires forall p :: p in spoken ==> Speakable(p)
    ensures OneFinalLast(d.answers, t.answers, ask)
  {
    forall i | 0 <= i < |t.answers| - 1 ensures t.answers[i] == (d.answers + Spoken(ask, spoken))[i] {
      assert t.answers[i] == t.answers[..|t.answers| - 1][i];
    }
  }

  /** Whatever the runner yields and however it ends, a question that parses is answered by
      zero or more speakable sentences and then exactly one final entry, which is last. */
  lemma OneFinalAnswer(d: Desk, ask: Ask, env: AskEnv)
    ensures OneFinalLast(d.answers, HandleAsk(d, Some(ask), env).answers, ask)
  {
    HandleConcludes(d, ask, env);
    AllPiecesAreSpeakable(env.reply.chunks, MIN_SENTENCE_CHARS);
    ConcludedMeansOneFinal(d, HandleAsk(d, Some(ask), env), ask, SpokenFor(d, ask, env));
  }

  /** A CODEQ:ASK entry is answered if and only if it parses; otherwise nothing changes at all. */
  lemma AnsweredIff(d: Desk, entry: Option<Ask>, env: AskEnv)
    ensures var t := HandleAsk(d, entry, env);
            && (|t.answers| > |d.answers| <==> entry.Some?)
            && (entry.None? ==> t == d)
  {
    if entry.Some? { HandleConcludes(d, entry.value, env); }
  }

  lemma OneFinalIsSendable(before: seq<Answer>, answers: seq<Answer>, ask: Ask)
    requires OneFinalLast(before, answers, ask)
    ensures forall i :: |before| <= i < |answers| ==> Sendable(answers[i])
  {
    forall i | |before| <= i < |answers| ensures Sendable(answers[i]) { SpeakableIsSendable(answers[i]); }
  }

  /** No entry breaks the wire contract, so none is refused while the answer is going out. */
  lemma EveryEntryIsSendable(d: Desk, ask: Ask, env: AskEnv)
    ensures forall i :: |d.answers| <= i < |HandleAsk(d, Some(ask), env).answers| ==>
              Sendable(HandleAsk(d, Some(ask), env).answers[i])
  {
    OneFinalAnswer(d, ask, env);
    OneFinalIsSendable(d.answers, HandleAsk(d, Some(ask), env).answers, ask);
  }

  /** A session ends ready exactly when the final entry is ok, and errored otherwise; no other
      session's record or runner is touched. */
  lemma StatusFollowsFinal(d: Desk, ask: Ask, env: AskEnv)
    ensures var t := HandleAsk(d, Some(ask), env);
            && OnlyTouches(d, t, ask.session)
            && |t.answers| > 0
            && (ask.session in t.sessions ==>
                  (t.sessions[ask.session].status == Ready <==> t.answers[|t.answers| - 1].ok)
                  && (t.sessions[ask.session].status == Errored <==> !t.answers[|t.answers| - 1].ok))
  {
    HandleConcludes(d, ask, env);
  }

  // --- nothing is lost, and chunking is inaudible --------------------------------

  function Texts(answers: seq<Answer>): (texts: seq<string>)
    ensures |texts| == |answers| && forall i :: 0 <= i < |answers| ==> texts[i] == answers[i].text
  {
    seq(|answers|, i requires 0 <= i < |answers| => answers[i].text)
  }

  lemma TextsOfSpoken(before: seq<Answer>, ask: Ask, pieces: seq<string>, last: Answer)
    ensures var t := before + Spoken(ask, pieces) + [last];
            && Texts(t[|before|..|t| - 1]) == pieces
            && Texts(t[|before|..]) == pieces + [last.text]
  {
    var t := before + Spoken(ask, pieces) + [last];
    assert t[|before|..|t| - 1] == Spoken(ask, pieces);
    assert t[|before|..] == Spoken(ask, pieces) + [last];
  }

  lemma StreamTexts(d: Desk, ask: Ask, reply: Reply)
    ensures var t := Stream(d, ask, reply).answers;
            var n := |d.answers|;
            var (pieces, rest) := FeedAll("", reply.chunks, MIN_SENTENCE_CHARS);
            && n < |t| && Texts(t[n..|t| - 1]) == pieces
            && (reply.ending.Done? ==> Texts(t[n..]) == pieces + [Strip(rest)])
  {
    var (pieces, rest) := FeedAll("", reply.chunks, MIN_SENTENCE_CHARS);
    var last := match reply.ending
      case Done(_) => Answer(ask, Strip(rest), true, true)
      case Raised(failure) => Answer(ask, Reason(failure), true, false);
    assert Stream(d, ask, reply).answers == d.answers + Spoken(ask, pieces) + [last];
    TextsOfSpoken(d.answers, ask, pieces, last);
  }

  lemma PiecesKeepInk(chunks: seq<string>)
    ensures var (pieces, rest) := FeedAll("", chunks, MIN_SENTENCE_CHARS);
            && Ink(Flat(pieces)) <= Ink(Flat(chunks))
            && Ink(Flat(pieces + [Strip(rest)])) == Ink(Flat(chunks))
  {
    var (pieces, rest) := FeedAll("", chunks, MIN_SENTENCE_CHARS);
    ChunkingDoesNotMatter(chunks, MIN_SENTENCE_CHARS);
    DrainKeepsInk(Flat(chunks), MIN_SENTENCE_CHARS);
    FlatConcat(pieces, [Strip(rest)]);
    FlatOne(Strip(rest));
    InkConcat(Flat(pieces), Strip(rest));
    StripMeaning(rest);
  }

  /** Everything the runner said before it was done is in the answer, in order; before a
      failure, what was published is the beginning of what it said. */
  lemma AnswerKeepsInk(d: Desk, ask: Ask, reply: Reply)
    ensures var t := Stream(d, ask, reply).answers;
            var n := |d.answers|;
            && n < |t|
            && (reply.ending.Done? ==> Ink(Flat(Texts(t[n..]))) == Ink(Flat(reply.chunks)))
            && (reply.ending.Raised? ==> Ink(Flat(Texts(t[n..|t| - 1]))) <= Ink(Flat(reply.chunks)))
  {
    StreamTexts(d, ask, reply);
    PiecesKeepInk(reply.chunks);
  }

  /** How the runner cut its text into chunks changes nothing at all. */
  lemma ChunkingIsInaudible(d: Desk, ask: Ask, env: AskEnv, chunks: seq<string>)
    requires Flat(chunks) == Flat(env.reply.chunks)
    ensures HandleAsk(d, Some(ask), env.(reply := env.reply.(chunks := chunks))) == HandleAsk(d, Some(ask), env)
  {
    SameTextSamePieces(chunks, env.reply.chunks, MIN_SENTENCE_CHARS);
  }

  // --- no runner is lost ---------------------------------------------------------

  ghost predicate Cached(d: Desk, id: nat) {
    exists sid :: sid in d.runners && d.runners[sid].id == id
  }

  /** Every runner ever built is either closed or cached, never both, and by one session only. */
  ghost predicate RunnersInv(d: Desk) {
    && (forall id: nat :: id < d.created ==> (id in d.closed <==> !Cached(d, id)))
    && (forall id :: id in d.closed ==> id < d.created)
    && (forall sid :: sid in d.runners ==> d.runners[sid].id < d.created)
    && (forall a, b :: a in d.runners && b in d.runners && d.runners[a].id == d.runners[b].id ==> a == b)
  }

  lemma DropKeepsRunners(d: Desk, sid: SessionId)
    requires RunnersInv(d)
    ensures RunnersInv(DropRunner(d, sid)) && sid !in DropRunner(d, sid).runners
  {
    var t := DropRunner(d, sid);
    forall id: nat | id < d.created ensures id in t.closed <==> !Cached(t, id) {
      if Cached(d, id) {
        var s :| s in d.runners && d.runners[s].id == id;
        assert s != sid ==> s in t.runners && t.runners[s].id == id;
      }
    }
  }

  lemma RunnerForKeepsRunners(d: Desk, sid: SessionId, clone: string, factory: Option<Failure>)
    requires RunnersInv(d)
    ensures var t := RunnerFor(d, sid, clone, factory);
            && RunnersInv(t)
            && (sid in t.runners ==> t.runners[sid].cwd == clone)
            && (sid in t.runners || factory.Some?)
  {
    if !Reusable(d, sid, clone) {
      DropKeepsRunners(d, sid);
      var d1 := DropRunner(d, sid);
      var t := RunnerFor(d, sid, clone, factory);
      if factory.None? {
        assert Cached(t, d1.created) by { assert t.runners[sid].id == d1.created; }
        forall id: nat | id < d1.created ensures Cached(t, id) <==> Cached(d1, id) {
          if Cached(d1, id) {
            var s :| s in d1.runners && d1.runners[s].id == id;
            assert t.runners[s].id == id;
          }
        }
      }
    }
  }

  lemma AskKeepsRunners(d: Desk, entry: Option<Ask>, env: AskEnv)
    requires RunnersInv(d)
    ensures RunnersInv(HandleAsk(d, entry, env))
  {
    if entry.Some? && entry.value.session in d.sessions && d.sessions[entry.value.session].Usable() && env.cloneExists {
      ConverseKeepsRunners(d, entry.value, env);
    }
  }

  /** Only the runners matter to the runner invariant. */
  ghost predicate SameRunners(d: Desk, t: Desk) {
    t.runners == d.runners && t.created == d.created && t.closed == d.closed
  }

  lemma SameRunnersKeep(d: Desk, t: Desk)
    requires RunnersInv(d) && SameRunners(d, t)
    ensures RunnersInv(t)
  {
    forall id: nat ensures Cached(t, id) <==> Cached(d, id) {}
  }

  lemma FailKeepsRunners(d: Desk, ask: Ask, failure: Failure)
    requires RunnersInv(d)
    ensures RunnersInv(Fail(d, ask, failure))
    ensures failure.StartupError? ==> ask.session !in Fail(d, ask, failure).runners
  {
    var d1 := PublishError(d, ask, Reason(failure));
    SameRunnersKeep(d, d1);
    DropKeepsRunners(d1, ask.session);
  }

  lemma StreamKeepsRunners(d: Desk, ask: Ask, reply: Reply)
    requires RunnersInv(d)
    ensures RunnersInv(Stream(d, ask, reply))
  {
    var t := Stream(d, ask, reply);
    match reply.ending
    case Done(_) => SameRunnersKeep(d, t);
    case Raised(failure) =>
      var d1 := d.(answers := d.answers + Spoken(ask, FeedAll("", reply.chunks, MIN_SENTENCE_CHARS).0));
      SameRunnersKeep(d, d1);
      FailKeepsRunners(d1, ask, failure);
  }

  lemma ConverseKeepsRunners(d: Desk, ask: Ask, env: AskEnv)
    requires RunnersInv(d) && ask.session in d.sessions && env.cloneExists
    ensures RunnersInv(Converse(d, ask, env))
  {
    var clone := d.sessions[ask.session].clone;
    var d1 := SetStatus(d, ask.session, Thinking);
    SameRunnersKeep(d, d1);
    RunnerForKeepsRunners(d1, ask.session, clone, env.factory);
    var d2 := RunnerFor(d1, ask.session, clone, env.factory);
    if !Reusable(d1, ask.session, clone) && env.factory.Some? {
      FailKeepsRunners(d2, ask, env.factory.value);
    } else {
      StreamKeepsRunners(d2, ask, env.reply);
    }
  }

  /** The desk after a whole history of questions. */
  ghost function AfterAsks(d: Desk, asks: seq<(Option<Ask>, AskEnv)>): Desk
    decreases |asks|
  {
    if asks == [] then d
    else
      var n := |asks| - 1;
      HandleAsk(AfterAsks(d, asks[..n]), asks[n].0, asks[n].1)
  }

  /** Over every history of questions no runner is lost: each one built is closed, or cached
      by exactly one session. */
  lemma {:induction false} NoRunnerIsLost(d: Desk, asks: seq<(Option<Ask>, AskEnv)>)
    requires d.runners == map[] && d.created == 0 && d.closed == {}
    ensures RunnersInv(AfterAsks(d, asks))
    decreases |asks|
  {
    if asks != [] {
      var n := |asks| - 1;
      NoRunnerIsLost(d, asks[..n]);
      AskKeepsRunners(AfterAsks(d, asks[..n]), asks[n].0, asks[n].1);
    }
  }

  /** The desk with every cached runner closed and forgotten. */
  function AllClosed(d: Desk): Desk {
    d.(runners := map[], closed := d.closed + set sid | sid in d.runners :: d.runners[sid].id)
  }

  /** After closing, every runner ever built is closed, none is cached, and nothing else changed. */
  lemma ClosingLeavesNoneOpen(d: Desk)
    requires RunnersInv(d)
    ensures var t := AllClosed(d);
            && (forall id: nat :: id in t.closed <==> id < t.created)
            && RunnersInv(t) && t.runners == map[]
            && t.sessions == d.sessions && t.answers == d.answers && t.created == d.created
  {
    var t := AllClosed(d);
    forall id: nat | id < d.created && id !in d.closed ensures id in t.closed {
      assert Cached(d, id);
      var sid :| sid in d.runners && d.runners[sid].id == id;
      assert d.runners[sid].id in set s | s in d.runners :: d.runners[s].id;
    }
  }

  // --- the manager ---------------------------------------------------------------

  class CodeScopeManager {
    var sessions: map<SessionId, Session>
    var answers: seq<Answer>
    var runners: map<SessionId, Runner>
    var created: nat
    ghost var closed: set<nat>

    ghost function View(): Desk
      reads this
    {
      Desk(sessions, answers, runners, created, closed)
    }

    constructor (sessions: map<SessionId, Session>)
      ensures View() == Desk(sessions, [], map[], 0, {})
    {
      this.sessions, answers, runners, created, closed := sessions, [], map[], 0, {};
    }

    method WriteStatus(sid: SessionId, status: SessionStatus)
      modifies this`sessions
      ensures View() == SetStatus(old(View()), sid, status)
    {
      if sid in sessions {
        sessions := sessions[sid := sessions[sid].(status := status)];
      }
    }

    method Publish(ask: Ask, text: string, final: bool)
      modifies this`answers
      ensures View() == old(View()).(answers := old(answers) + [Answer(ask, text, final, true)])
    {
      answers := answers + [Answer(ask, text, final, true)];
    }

    method PublishFailure(ask: Ask, message: string)
      modifies this
      ensures View() == PublishError(old(View()), ask, message)
    {
      answers := answers + [Answer(ask, message, true, false)];
      WriteStatus(ask.session, Errored);
    }

    method Drop(sid: SessionId)
      modifies this
      ensures View() == DropRunner(old(View()), sid)
    {
      if sid !in runners { return; }
      closed := closed + {runners[sid].id};
      runners := runners - {sid};
    }

    /** A runner for the session's clone, or the failure of the factory. */
    method FindRunner(sid: SessionId, clone: string, factory: Option<Failure>) returns (failure: Option<Failure>)
      modifies this
      ensures View() == RunnerFor(old(View()), sid, clone, factory)
      ensures failure == if Reusable(old(View()), sid, clone) then None else factory
    {
      if sid in runners && runners[sid].cwd == clone { return None; }
      if sid in runners { Drop(sid); }
      if factory.Some? { return factory; }
      runners := runners[sid := Runner(created, clone)];
      created := created + 1;
      return None;
    }

    method RememberAgent(sid: SessionId, agentId: string)
      modifies this`sessions
      ensures View() == Remember(old(View()), sid, agentId)
    {
      if sid in sessions && agentId != "" && agentId != sessions[sid].agentId {
        sessions := sessions[sid := sessions[sid].(agentId := agentId)];
      }
    }

    /** Publish sentences one after another. */
    method PublishAll(ask: Ask, sentences: seq<string>)
      modifies this`answers
      ensures View() == old(View()).(answers := old(answers) + Spoken(ask, sentences))
    {
      for j := 0 to |sentences|
        invariant answers == old(answers) + Spoken(ask, sentences[..j])
      {
        Publish(ask, sentences[j], false);
        SpokenConcat(ask, sentences[..j], [sentences[j]]);
        assert sentences[..j + 1] == sentences[..j] + [sentences[j]];
      }
      assert sentences[..|sentences|] == sentences;
    }

    /** Publish the sentences one more chunk completes. */
    method SpeakChunk(ask: Ask, chunk: string, buffer: SentenceBuffer)
      requires buffer.minChars == MIN_SENTENCE_CHARS
      modifies this`answers, buffer
      ensures answers == old(answers) + Spoken(ask, Drain(old(buffer.buffer) + chunk, MIN_SENTENCE_CHARS).0)
      ensures buffer.buffer == Drain(old(buffer.buffer) + chunk, MIN_SENTENCE_CHARS).1
    {
      var sentences := buffer.Feed(chunk);
      PublishAll(ask, sentences);
    }

    /** Publish the sentences of a reply as its chunks arrive; what is left is in the buffer. */
    method Speak(ask: Ask, chunks: seq<string>, buffer: SentenceBuffer)
      requires buffer.buffer == "" && buffer.minChars == MIN_SENTENCE_CHARS
      modifies this`answers, buffer
      ensures View() == old(View()).(answers := old(answers) + Spoken(ask, FeedAll("", chunks, MIN_SENTENCE_CHARS).0))
      ensures buffer.buffer == FeedAll("", chunks, MIN_SENTENCE_CHARS).1
    {
      ghost var said: seq<string> := [];
      for k := 0 to |chunks|
        invariant said == FeedAll("", chunks[..k], MIN_SENTENCE_CHARS).0
        invariant buffer.buffer == FeedAll("", chunks[..k], MIN_SENTENCE_CHARS).1
        invariant answers == old(answers) + Spoken(ask, said)
      {
        FeedAllStep(chunks, k, MIN_SENTENCE_CHARS);
        SpeakMore(old(answers), ask, said, Drain(buffer.buffer + chunks[k], MIN_SENTENCE_CHARS).0);
        said := said + Drain(buffer.buffer + chunks[k], MIN_SENTENCE_CHARS).0;
        SpeakChunk(ask, chunks[k], buffer);
      }
      assert chunks[..|chunks|] == chunks;
    }

    /** Answer one CODEQ:ASK entry. */
    method HandleEntry(entry: Option<Ask>, env: AskEnv)
      modifies this
      ensures View() == HandleAsk(old(View()), entry, env)
    {
      if entry.None? { return; }
      var ask := entry.value;
      if ask.session !in sessions {
        PublishFailure(ask, NoSession(ask.session));
        return;
      }
      if !sessions[ask.session].Usable() {
        PublishFailure(ask, Unusable(ask.session, sessions[ask.session]));
        return;
      }
      var clone := sessions[ask.session].clone;
      if !env.cloneExists {
        PublishFailure(ask, MissingClone(clone));
        return;
      }
      WriteStatus(ask.session, Thinking);
      var failure := FindRunner(ask.session, clone, env.factory);
      if failure.Some? {
        Failed(ask, failure.value);
        return;
      }
      AnswerFrom(ask, env.reply);
    }

    method Failed(ask: Ask, failure: Failure)
      modifies this
      ensures View() == Fail(old(View()), ask, failure)
    {
      PublishFailure(ask, Reason(failure));
      if failure.StartupError? { Drop(ask.session); }
    }

    method AnswerFrom(ask: Ask, reply: Reply)
      modifies this
      ensures View() == Stream(old(View()), ask, reply)
    {
      var buffer := new SentenceBuffer(MIN_SENTENCE_CHARS);
      Speak(ask, reply.chunks, buffer);
      match reply.ending {
        case Raised(failure) =>
          Failed(ask, failure);
        case Done(agentId) =>
          var tail := buffer.Flush();
          Publish(ask, tail, true);
          RememberAgent(ask.session, agentId);
          WriteStatus(ask.session, Ready);
      }
    }

    /** Close every cached runner. */
    method Close()
      modifies this
      ensures View() == AllClosed(old(View()))
    {
      var left := runners.Keys;
      while left != {}
        invariant left <= runners.Keys && runners == old(runners)
        invariant sessions == old(sessions) && answers == old(answers) && created == old(created)
        invariant closed == old(closed) + set sid | sid in runners && sid !in left :: runners[sid].id
      {
        var sid :| sid in left;
        closed := closed + {runners[sid].id};
        left := left - {sid};
      }
      runners := map[];
    }
  }
}
