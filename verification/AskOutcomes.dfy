/**
  What one question comes to: when its answer is ok, what the answer's texts are, and what it
  leaves of the session's record and of its runner, over Redis and for an HTTP client that may stop
  taking entries.
 */
module AskOutcomes {
  import opened Wrappers
  import opened Text
  import opened Sentences
  import opened CodeScope
  import opened ScopeService

  // --- the final entry -------------------------------------------------------------

  /** The session's cached runner works in that clone. */
  predicate HasRunnerIn(d: Desk, sid: SessionId, clone: string) {
    sid in d.runners && d.runners[sid].cwd == clone
  }

  /** The question gets as far as a runner. */
  predicate Reaches(d: Desk, ask: Ask, env: AskEnv) {
    && ask.session in d.sessions && env.cloneExists
    && (HasRunnerIn(d, ask.session, d.sessions[ask.session].clone) || env.factory.None?)
  }

  lemma FinalOf(d: Desk, ask: Ask, env: AskEnv)
    requires ask.session in d.sessions
    ensures var t := Converse(d, ask, env).answers;
            && |t| > |d.answers|
            && (t[|t| - 1].ok <==> Reaches(d, ask, env) && env.reply.ending.Done?)
            && (!Reaches(d, ask, env) ==> |t| == |d.answers| + 1)
  {
    ConverseConcludes(d, ask, env);
    var clone := d.sessions[ask.session].clone;
    var d1 := SetStatus(d, ask.session, Thinking);
    var d2 := RunnerFor(d1, ask.session, clone, env.factory);
    RunnerForTouches(d, ask.session, clone, env.factory);
    if Reaches(d, ask, env) { StreamConcludes(d2, ask, env.reply); }
  }

  /** An answer is ok if and only if the session is registered and usable, its clone is there, a
      runner for the clone is cached or can be built, and the runner ends well. When it does not
      come to a runner nothing but the error is said. */
  lemma AnswerIsOkIff(d: Desk, ask: Ask, env: AskEnv)
    ensures var t := HandleAsk(d, Some(ask), env).answers;
            var usable := ask.session in d.sessions && d.sessions[ask.session].problem.None?;
            && |t| > |d.answers|
            && (t[|t| - 1].ok <==> usable && Reaches(d, ask, env) && env.reply.ending.Done?)
            && (!(usable && Reaches(d, ask, env)) ==> |t| == |d.answers| + 1)
  {
    if ask.session in d.sessions { FinalOf(d, ask, env); }
  }

  /** The texts of an answer that ends well make up all that the runner said, with nothing but
      white space around them and nothing changed inside. */
  lemma AnswerIsTheReply(d: Desk, ask: Ask, env: AskEnv) returns (gaps: seq<string>)
    requires ask.session in d.sessions && d.sessions[ask.session].problem.None?
    requires Reaches(d, ask, env) && env.reply.ending.Done?
    ensures |HandleAsk(d, Some(ask), env).answers| > |d.answers|
    ensures Contains(Flat(env.reply.chunks), gaps, Texts(HandleAsk(d, Some(ask), env).answers[|d.answers|..]))
  {
    var clone := d.sessions[ask.session].clone;
    RunnerForTouches(d, ask.session, clone, env.factory);
    StreamTexts(RunnerFor(SetStatus(d, ask.session, Thinking), ask.session, clone, env.factory), ask, env.reply);
    gaps := FlushCompletes(env.reply.chunks, MIN_SENTENCE_CHARS);
  }

  /** What was said before a run failed is a beginning of what the runner said, up to white space. */
  lemma FailedAnswerIsABeginning(d: Desk, ask: Ask, env: AskEnv) returns (gaps: seq<string>, said: string)
    requires ask.session in d.sessions && d.sessions[ask.session].problem.None?
    requires Reaches(d, ask, env) && env.reply.ending.Raised?
    ensures |HandleAsk(d, Some(ask), env).answers| > |d.answers|
    ensures var t := HandleAsk(d, Some(ask), env).answers;
            said <= Flat(env.reply.chunks) && Contains(said, gaps, Texts(t[|d.answers|..|t| - 1]))
  {
    var clone := d.sessions[ask.session].clone;
    RunnerForTouches(d, ask.session, clone, env.factory);
    StreamTexts(RunnerFor(SetStatus(d, ask.session, Thinking), ask.session, clone, env.factory), ask, env.reply);
    gaps, said := FedTextContains(env.reply.chunks, MIN_SENTENCE_CHARS);
  }

  // --- the record and the runner ------------------------------------------------------

  /** The session's record with another status, and another agent if one is named. */
  predicate SameRecord(before: Session, after: Session, agentId: string) {
    && after.problem == before.problem && after.clone == before.clone
    && after.agentId == if agentId != "" then agentId else before.agentId
  }

  /** The agent that an answer that ended well names. */
  function NamedAgent(reply: Reply): string {
    match reply.ending
    case Done(agentId) => agentId
    case Raised(_) => ""
  }

  predicate FailsToStart(reply: Reply) {
    reply.ending.Raised? && reply.ending.failure.StartupError?
  }

  /** The runner a session has once it has one for its clone: the cached one, or a new one. */
  function RunnerIn(d: Desk, sid: SessionId, clone: string): Runner {
    if HasRunnerIn(d, sid, clone) then d.runners[sid] else Runner(d.created, clone)
  }

  /** A runner of the session that was cached for another clone. */
  function Replaced(d: Desk, sid: SessionId, clone: string): set<nat> {
    if sid in d.runners && !HasRunnerIn(d, sid, clone) then {d.runners[sid].id} else {}
  }

  lemma RunnerForGives(d: Desk, sid: SessionId, clone: string, factory: Option<Failure>)
    ensures var t := RunnerFor(d, sid, clone, factory);
            && t.sessions == d.sessions
            && (sid in t.runners <==> HasRunnerIn(d, sid, clone) || factory.None?)
            && (sid in t.runners ==> t.runners[sid] == RunnerIn(d, sid, clone))
            && t.created == d.created + (if !HasRunnerIn(d, sid, clone) && factory.None? then 1 else 0)
            && t.closed == d.closed + Replaced(d, sid, clone)
  {
  }

  /** What is left of the runners when the question found the clone: the cached runner or a new one
      stays cached unless it is dropped, and a runner for another clone is closed. */
  ghost predicate LeavesRunner(d: Desk, t: Desk, sid: SessionId, clone: string, runs: bool, dropped: bool) {
    var own := RunnerIn(d, sid, clone);
    && (sid in t.runners <==> runs && !dropped)
    && (sid in t.runners ==> t.runners[sid] == own)
    && t.created == d.created + (if runs && !HasRunnerIn(d, sid, clone) then 1 else 0)
    && t.closed == d.closed + Replaced(d, sid, clone) + (if runs && dropped then {own.id} else {})
  }

  lemma FailLeaves(d: Desk, ask: Ask, failure: Failure)
    requires ask.session in d.sessions
    ensures var t := Fail(d, ask, failure);
            && ask.session in t.sessions && SameRecord(d.sessions[ask.session], t.sessions[ask.session], "")
            && (t.answers == d.answers + [Answer(ask, Reason(failure), true, false)])
            && (failure.StartupError? ==> SameRunners(DropRunner(d, ask.session), t))
            && (!failure.StartupError? ==> SameRunners(d, t))
  {
  }

  lemma StreamLeaves(d: Desk, ask: Ask, reply: Reply)
    requires ask.session in d.sessions
    ensures var t := Stream(d, ask, reply);
            && ask.session in t.sessions
            && SameRecord(d.sessions[ask.session], t.sessions[ask.session], NamedAgent(reply))
            && SameRunners(if FailsToStart(reply) then DropRunner(d, ask.session) else d, t)
            && (reply.ending.Raised? ==>
                  t.answers != [] && t.answers[|t.answers| - 1] == Answer(ask, Reason(reply.ending.failure), true, false))
  {
    if reply.ending.Raised? {
      var pieces := FeedAll("", reply.chunks, MIN_SENTENCE_CHARS).0;
      FailLeaves(d.(answers := d.answers + Spoken(ask, pieces)), ask, reply.ending.failure);
    }
  }

  /** The record and the runner after a question that found its session: the record changes its
      status and takes the agent of an answer that ended well; the runner is dropped exactly when it
      failed to start. */
  lemma ConverseLeaves(d: Desk, ask: Ask, env: AskEnv)
    requires ask.session in d.sessions
    ensures var sid, clone := ask.session, d.sessions[ask.session].clone;
            var t := Converse(d, ask, env);
            var runs := Reaches(d, ask, env);
            && sid in t.sessions
            && SameRecord(d.sessions[sid], t.sessions[sid], if runs then NamedAgent(env.reply) else "")
            && (if env.cloneExists then LeavesRunner(d, t, sid, clone, runs, FailsToStart(env.reply)) else SameRunners(d, t))
  {
    if env.cloneExists {
      var sid, clone := ask.session, d.sessions[ask.session].clone;
      var d1 := SetStatus(d, sid, Thinking);
      var d2 := RunnerFor(d1, sid, clone, env.factory);
      RunnerForGives(d1, sid, clone, env.factory);
      if Reaches(d, ask, env) { StreamLeaves(d2, ask, env.reply); } else { FailLeaves(d2, ask, env.factory.value); }
    }
  }

  /** The same of a CODEQ:ASK entry; a question without a usable session leaves everything but the
      status of that session. */
  lemma AskLeaves(d: Desk, ask: Ask, env: AskEnv)
    ensures var sid := ask.session;
            var t := HandleAsk(d, Some(ask), env);
            var usable := sid in d.sessions && d.sessions[sid].problem.None?;
            var runs := usable && Reaches(d, ask, env);
            && (sid in d.sessions ==>
                  sid in t.sessions
                  && SameRecord(d.sessions[sid], t.sessions[sid], if runs then NamedAgent(env.reply) else ""))
            && (if usable && env.cloneExists
                then LeavesRunner(d, t, sid, d.sessions[sid].clone, runs, FailsToStart(env.reply))
                else SameRunners(d, t))
  {
    if ask.session in d.sessions { ConverseLeaves(d, ask, env); }
  }

  /** The last entry of an answer that did not come to a good end. */
  function ErrorText(d: Desk, ask: Ask, env: AskEnv): string {
    if ask.session !in d.sessions then NoSession(ask.session)
    else
      var session := d.sessions[ask.session];
      if session.problem.Some? then Unusable(ask.session, session)
      else if !env.cloneExists then MissingClone(session.clone)
      else if !Reaches(d, ask, env) && env.factory.Some? then Reason(env.factory.value)
      else if env.reply.ending.Raised? then Reason(env.reply.ending.failure)
      else ""
  }

  lemma ConverseSaysWhy(d: Desk, ask: Ask, env: AskEnv)
    requires ask.session in d.sessions && d.sessions[ask.session].problem.None?
    requires !(Reaches(d, ask, env) && env.reply.ending.Done?)
    ensures var t := Converse(d, ask, env).answers;
            t != [] && t[|t| - 1] == Answer(ask, ErrorText(d, ask, env), true, false)
  {
    if env.cloneExists {
      var sid, clone := ask.session, d.sessions[ask.session].clone;
      var d1 := SetStatus(d, sid, Thinking);
      var d2 := RunnerFor(d1, sid, clone, env.factory);
      if Reaches(d, ask, env) { StreamLeaves(d2, ask, env.reply); } else { FailLeaves(d2, ask, env.factory.value); }
    }
  }

  /** An answer that is not ok says why: the session is unknown or does not parse, the clone is
      missing, no runner could be built, or the run failed. */
  lemma ErrorSaysWhy(d: Desk, ask: Ask, env: AskEnv)
    requires !(ask.session in d.sessions && d.sessions[ask.session].problem.None?
               && Reaches(d, ask, env) && env.reply.ending.Done?)
    ensures var t := HandleAsk(d, Some(ask), env).answers;
            t != [] && t[|t| - 1] == Answer(ask, ErrorText(d, ask, env), true, false)
  {
    if ask.session in d.sessions && d.sessions[ask.session].problem.None? { ConverseSaysWhy(d, ask, env); }
  }

  // --- a client that may stop ------------------------------------------------------------

  /** A client that comes back after the final entry leaves what the whole conversation leaves. One
      that stops at it or before leaves the record with its old agent, and the runner cached even if
      it failed to start: a runner that failed is dropped only when the client comes back. */
  lemma ServedLeaves(d: Desk, ask: Ask, env: AskEnv, take: nat)
    requires d.answers == [] && take > 0 && !Blank(ask.question) && ask.session in d.sessions
    ensures var sid := ask.session;
            var t := Asked(d, ask, env, take).value;
            var runs, back := Reaches(d, ask, env), |Converse(d, ask, env).answers| < take;
            && sid in t.sessions
            && SameRecord(d.sessions[sid], t.sessions[sid], if runs && back then NamedAgent(env.reply) else "")
            && (if env.cloneExists
                then LeavesRunner(d, t, sid, d.sessions[sid].clone, runs, back && FailsToStart(env.reply))
                else SameRunners(d, t))
  {
    ConverseLeaves(d, ask, env);
    RunnerForGives(SetStatus(d, ask.session, Thinking), ask.session, d.sessions[ask.session].clone, env.factory);
  }

  /** A client is answered ok, if it takes all there is, under the same condition as over Redis. A
      blank question or an unknown session raises before anything else happens, and a client that
      takes nothing changes nothing. */
  lemma ServedOkIff(d: Desk, ask: Ask, env: AskEnv, take: nat)
    requires d.answers == []
    ensures Asked(d, ask, env, take).None? <==> take > 0 && (Blank(ask.question) || ask.session !in d.sessions)
    ensures take == 0 ==> Asked(d, ask, env, take) == Some(d)
    ensures take > 0 && Asked(d, ask, env, take).Some? ==>
              var full := Converse(d, ask, env).answers;
              var t := Asked(d, ask, env, take).value.answers;
              full != [] && t == (if |full| < take then full else full[..take])
              && (full[|full| - 1].ok <==> Reaches(d, ask, env) && env.reply.ending.Done?)
  {
    if ask.session in d.sessions { FinalOf(d, ask, env); }
  }
}
