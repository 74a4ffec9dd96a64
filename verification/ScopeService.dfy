/**
  The same conversation without Redis: a generator that yields the answer's entries to an HTTP
  client, which may stop taking them at any entry. Whatever comes after that entry never happens.
 */
module ScopeService {
  import opened Wrappers
  import opened Text
  import opened Sentences
  import opened CodeScope

  /** A generator that was closed while it yielded entry number `take`, or that ran to its end. */
  predicate RunsOut(full: seq<Answer>, take: nat) {
    |full| < take
  }

  /** What a session's record and runner are while the entries are going out. */
  function Underway(d: Desk, ask: Ask, env: AskEnv): Desk
    requires ask.session in d.sessions
  {
    if env.cloneExists
    then RunnerFor(SetStatus(d, ask.session, Thinking), ask.session, d.sessions[ask.session].clone, env.factory)
    else d
  }

  /** One question of which the client takes at most `take` entries; `d.answers` is what this
      question has yielded so far, nothing. A blank question or an unknown session raises before
      anything happens. */
  function Asked(d: Desk, ask: Ask, env: AskEnv, take: nat): Option<Desk>
    requires d.answers == []
  {
    if take == 0 then Some(d)
    else if Blank(ask.question) || ask.session !in d.sessions then None
    else
      var t := Converse(d, ask, env);
      if RunsOut(t.answers, take) then Some(t) else Some(Underway(d, ask, env).(answers := t.answers[..take]))
  }

  /** What has been yielded of `all` when the client takes at most `take`. */
  function Taken(all: seq<Answer>, take: nat): seq<Answer> {
    if RunsOut(all, take) then all else all[..take]
  }

  lemma {:induction false} EarlierPiecesFirst(chunks: seq<string>, k: nat, minChars: int)
    requires k <= |chunks|
    ensures FeedAll("", chunks[..k], minChars).0 <= FeedAll("", chunks, minChars).0
    decreases |chunks| - k
  {
    if k == |chunks| {
      assert chunks[..k] == chunks;
    } else {
      FeedAllStep(chunks, k, minChars);
      EarlierPiecesFirst(chunks, k + 1, minChars);
    }
  }

  lemma TakenOfLonger(ask: Ask, said: seq<string>, pieces: seq<string>, take: nat)
    requires said <= pieces && !RunsOut(Spoken(ask, said), take)
    ensures Taken(Spoken(ask, said), take) == Taken(Spoken(ask, pieces), take)
  {
  }

  /** The answer proper, as far as the client takes it. */
  function Streaming(d: Desk, ask: Ask, reply: Reply, take: nat): Desk {
    var t := Stream(d, ask, reply);
    if RunsOut(t.answers, take) then t else d.(answers := t.answers[..take])
  }

  lemma StreamEntries(d: Desk, ask: Ask, reply: Reply)
    requires d.answers == []
    ensures var (pieces, rest) := FeedAll("", reply.chunks, MIN_SENTENCE_CHARS);
            var last := if reply.ending.Done? then Answer(ask, Strip(rest), true, true)
                        else Answer(ask, Reason(reply.ending.failure), true, false);
            Stream(d, ask, reply).answers == Spoken(ask, pieces) + [last]
  {
    var (pieces, rest) := FeedAll("", reply.chunks, MIN_SENTENCE_CHARS);
    assert [] + Spoken(ask, pieces) == Spoken(ask, pieces);
  }

  class ScopeService {
    var sessions: map<SessionId, Session>
    var runners: map<SessionId, Runner>
    var created: nat
    ghost var closed: set<nat>

    ghost function View(yielded: seq<Answer>): Desk
      reads this
    {
      Desk(sessions, yielded, runners, created, closed)
    }

    constructor (sessions: map<SessionId, Session>)
      ensures View([]) == Desk(sessions, [], map[], 0, {})
    {
      this.sessions, runners, created, closed := sessions, map[], 0, {};
    }

    /** The status of the record in hand, put back in the store. */
    method Put(sid: SessionId, status: SessionStatus)
      modifies this`sessions
      ensures forall y :: View(y) == SetStatus(old(View(y)), sid, status)
    {
      if sid in sessions {
        sessions := sessions[sid := sessions[sid].(status := status)];
      }
    }

    method Drop(sid: SessionId)
      modifies this`runners, this`closed
      ensures forall y :: View(y) == DropRunner(old(View(y)), sid)
    {
      if sid in runners {
        closed := closed + {runners[sid].id};
        runners := runners - {sid};
      }
    }

    method FindRunner(sid: SessionId, clone: string, factory: Option<Failure>) returns (failure: Option<Failure>)
      modifies this`runners, this`closed, this`created
      ensures View([]) == RunnerFor(old(View([])), sid, clone, factory)
      ensures failure == if Reusable(old(View([])), sid, clone) then None else factory
    {
      if sid in runners && runners[sid].cwd == clone { return None; }
      Drop(sid);
      if factory.Some? { return factory; }
      runners := runners[sid := Runner(created, clone)];
      created := created + 1;
      return None;
    }
  
    /** Yields sentences until they are all out or the client stops taking them. */
    method YieldAll(ask: Ask, sentences: seq<string>, before: seq<Answer>, take: nat) returns (yielded: seq<Answer>)
      requires RunsOut(before, take)
      ensures yielded == Taken(before + Spoken(ask, sentences), take)
    {
      yielded := before;
      for j := 0 to |sentences|
        invariant yielded == before + Spoken(ask, sentences[..j]) && RunsOut(yielded, take)
      {
        yielded := yielded + [Answer(ask, sentences[j], false, true)];
        assert yielded == before + Spoken(ask, sentences[..j + 1]);
        if |yielded| == take {
          assert yielded == (before + Spoken(ask, sentences))[..take];
          return;
        }
      }
      assert sentences[..|sentences|] == sentences;
    }

    method Speak(ask: Ask, chunks: seq<string>, take: nat, buffer: SentenceBuffer) returns (yielded: seq<Answer>)
      requires buffer.buffer == "" && buffer.minChars == MIN_SENTENCE_CHARS && 0 < take
      modifies buffer
      ensures var (pieces, rest) := FeedAll("", chunks, MIN_SENTENCE_CHARS);
              && yielded == Taken(Spoken(ask, pieces), take)
              && (RunsOut(Spoken(ask, pieces), take) ==> buffer.buffer == rest)
    {
      yielded := [];
      ghost var said: seq<string> := [];
      for k := 0 to |chunks|
        invariant said == FeedAll("", chunks[..k], MIN_SENTENCE_CHARS).0
        invariant buffer.buffer == FeedAll("", chunks[..k], MIN_SENTENCE_CHARS).1
        invariant yielded == Spoken(ask, said) && RunsOut(yielded, take)
      {
        FeedAllStep(chunks, k, MIN_SENTENCE_CHARS);
        var sentences := buffer.Feed(chunks[k]);
        SpokenConcat(ask, said, sentences);
        said := said + sentences;
        yielded := YieldAll(ask, sentences, yielded, take);
        if |yielded| == take {
          EarlierPiecesFirst(chunks, k + 1, MIN_SENTENCE_CHARS);
          TakenOfLonger(ask, said, FeedAll("", chunks, MIN_SENTENCE_CHARS).0, take);
          return;
        }
      }
      assert chunks[..|chunks|] == chunks;
    }

    /** The error entry; what follows it happens only if the client comes back for more. */
    method Failed(ask: Ask, failure: Failure, before: seq<Answer>, take: nat) returns (yielded: seq<Answer>)
      requires RunsOut(before, take)
      modifies this
      ensures yielded == before + [Answer(ask, Reason(failure), true, false)]
      ensures View(yielded) == if RunsOut(yielded, take) then Fail(old(View(before)), ask, failure) else old(View(yielded))
    {
      yielded := before + [Answer(ask, Reason(failure), true, false)];
      if |yielded| < take {
        if failure.StartupError? { Drop(ask.session); }
        Put(ask.session, Errored);
      }
    }

    /** The final entry; the session is ready only if the client comes back for more. */
    method Finished(ask: Ask, tail: string, agentId: string, before: seq<Answer>, take: nat) returns (yielded: seq<Answer>)
      requires RunsOut(before, take)
      modifies this
      ensures yielded == before + [Answer(ask, tail, true, true)]
      ensures View(yielded) == if RunsOut(yielded, take)
                               then SetStatus(Remember(old(View(yielded)), ask.session, agentId), ask.session, Ready)
                               else old(View(yielded))
    {
      yielded := before + [Answer(ask, tail, true, true)];
      if |yielded| < take {
        Remembered(ask.session, agentId);
        Put(ask.session, Ready);
      }
    }

    method AnswerFrom(ask: Ask, reply: Reply, take: nat) returns (yielded: seq<Answer>)
      requires 0 < take
      modifies this
      ensures View(yielded) == Streaming(old(View([])), ask, reply, take)
    {
      var buffer := new SentenceBuffer(MIN_SENTENCE_CHARS);
      yielded := Speak(ask, reply.chunks, take, buffer);
      StreamEntries(View([]), ask, reply);
      if |yielded| == take { return; }
      match reply.ending {
        case Raised(failure) =>
          yielded := Failed(ask, failure, yielded, take);
        case Done(agentId) =>
          var tail := buffer.Flush();
          yielded := Finished(ask, tail, agentId, yielded, take);
      }
    }

    method Remembered(sid: SessionId, agentId: string)
      modifies this`sessions
      ensures forall y :: View(y) == Remember(old(View(y)), sid, agentId)
    {
      if sid in sessions && agentId != "" && agentId != sessions[sid].agentId {
        sessions := sessions[sid := sessions[sid].(agentId := agentId)];
      }
    }
  
    /** One question, of which the client takes at most `take` entries. */
    method Ask(ask: Ask, env: AskEnv, take: nat) returns (yielded: seq<Answer>, raised: bool)
      modifies this
      ensures var d := Asked(old(View([])), ask, env, take);
              raised == d.None? && View(yielded) == d.GetOr(old(View([])))
    {
      yielded, raised := [], false;
      if take == 0 { return; }
      if Blank(ask.question) || ask.session !in sessions {
        raised := true;
        return;
      }
      var clone := sessions[ask.session].clone;
      if !env.cloneExists {
        yielded := [Answer(ask, MissingClone(clone), true, false)];
        if 1 < take { Put(ask.session, Errored); }
        return;
      }
      Put(ask.session, Thinking);
      var failure := FindRunner(ask.session, clone, env.factory);
      if failure.Some? {
        yielded := Failed(ask, failure.value, [], take);
      } else {
        yielded := AnswerFrom(ask, env.reply, take);
      }
    }
  }

  // --- what the client makes of it ------------------------------------------------------

  /** Whenever the client stops, what it has is the beginning of the whole answer. */
  lemma ClientGetsAPrefix(d: Desk, ask: Ask, env: AskEnv, take: nat)
    requires d.answers == [] && Asked(d, ask, env, take).Some? && ask.session in d.sessions
    ensures Asked(d, ask, env, take).value.answers <= Converse(d, ask, env).answers
    ensures RunsOut(Asked(d, ask, env, take).value.answers, take) || |Asked(d, ask, env, take).value.answers| == take
  {
  }

  /** A client that comes back after the final entry leaves the session with the status that goes
      with it; one that stops at it, or before, leaves the session thinking, or as it was when the
      clone is missing. So the status follows the final entry exactly when the client came back, or
      the session was marked errored over a missing clone already. */
  lemma StatusNeedsTheEnd(d: Desk, ask: Ask, env: AskEnv, take: nat)
    requires d.answers == [] && take > 0 && !Blank(ask.question)
    requires ask.session in d.sessions
    ensures var full := Converse(d, ask, env).answers;
            var t := Asked(d, ask, env, take).value;
            && full != [] && full[|full| - 1].final && ask.session in t.sessions
            && var was, status := d.sessions[ask.session].status, t.sessions[ask.session].status;
               var due := if full[|full| - 1].ok then Ready else Errored;
               && status == (if |full| < take then due else if env.cloneExists then Thinking else was)
               && (status == due <==> |full| < take || (!env.cloneExists && was == Errored))
  {
    ConverseConcludes(d, ask, env);
    RunnerForTouches(d, ask.session, d.sessions[ask.session].clone, env.factory);
  }

  /** However early clients stop, every runner ever built is closed or cached by one session. */
  lemma AskedKeepsRunners(d: Desk, ask: Ask, env: AskEnv, take: nat)
    requires RunnersInv(d) && d.answers == []
    ensures Asked(d, ask, env, take).Some? ==> RunnersInv(Asked(d, ask, env, take).value)
  {
    if take > 0 && !Blank(ask.question) && ask.session in d.sessions {
      var t := Converse(d, ask, env);
      if env.cloneExists {
        ConverseKeepsRunners(d, ask, env);
        var d1 := SetStatus(d, ask.session, Thinking);
        SameRunnersKeep(d, d1);
        RunnerForKeepsRunners(d1, ask.session, d.sessions[ask.session].clone, env.factory);
      } else {
        SameRunnersKeep(d, t);
      }
      if !RunsOut(t.answers, take) {
        var under := Underway(d, ask, env);
        SameRunnersKeep(under, under.(answers := t.answers[..take]));
      }
    }
  }
}
