/**
  The canvas request and reply streams: what one drain of the canvas and one wait of a caller do.

  A stream is the sequence of its entries, and an entry's id is its place in it: a cursor is the
  number of entries already read. Interleavings of callers and canvas are in `CanvasRaces`.
 */
module CanvasStreams {
  import opened Wrappers

  const BATCH: nat := 16

  type RequestId = string

  /** `body` stands for action, node, suffix and value. */
  datatype Command = Command(id: RequestId, body: string)

  /** What applying a command gave; commands that cannot be parsed or applied fail. */
  datatype Outcome = Result(value: string) | Failure(detail: string)

  datatype Reply = Reply(id: RequestId, outcome: Outcome)

  /** Where the canvas reads from. `Newest` is what a failed look at the stream's end leaves: a
      read from there, which does not block, finds nothing. */
  datatype Cursor = Unset | At(n: nat) | Newest

  function ReplyTo(c: Command, outcome: Outcome): Reply {
    Reply(if c.id == "" then "unknown" else c.id, outcome)
  }

  /** Where a read from a cursor ends: at the end of the stream, or after a full batch. */
  function ReadEnd(cursor: nat, length: nat): nat {
    if length <= cursor then cursor else if cursor + BATCH < length then cursor + BATCH else length
  }

  // --- one drain of the canvas ---------------------------------------------------------

  /** `outcomes[p]` is what applying the command at p gives; `sent` holds the places whose reply
      could be appended. */
  datatype World = World(outcomes: seq<Outcome>, sent: set<nat>)

  datatype Canvas = Canvas(connected: bool, cursor: Cursor, applied: seq<nat>, replies: seq<Reply>)

  function Connected(c: Canvas, length: nat, pingOk: bool, lastOk: bool): Canvas {
    if c.connected || !pingOk then c
    else if c.cursor.Unset? then c.(connected := true, cursor := if lastOk then At(length) else Newest)
    else c.(connected := true)
  }

  /** Moving the cursor past a command, applying it and trying to reply. */
  function HandleOne(c: Canvas, cmds: seq<Command>, p: nat, w: World): Canvas
    requires p < |cmds| <= |w.outcomes|
  {
    var c1 := c.(cursor := At(p + 1), applied := c.applied + [p]);
    if p in w.sent then c1.(replies := c1.replies + [ReplyTo(cmds[p], w.outcomes[p])]) else c1.(connected := false)
  }

  function HandleUpTo(c: Canvas, cmds: seq<Command>, lo: nat, hi: nat, w: World): Canvas
    requires lo <= hi <= |cmds| <= |w.outcomes|
    decreases hi
  {
    if lo == hi then c else HandleOne(HandleUpTo(c, cmds, lo, hi - 1, w), cmds, hi - 1, w)
  }

  function Drained(c: Canvas, cmds: seq<Command>, w: World, pingOk: bool, lastOk: bool, readOk: bool): Canvas
    requires |cmds| <= |w.outcomes|
  {
    var c1 := Connected(c, |cmds|, pingOk, lastOk);
    if !c1.connected then c1
    else if !readOk then c1.(connected := false)
    else
      var n := if c1.cursor.Unset? then At(0) else c1.cursor;
      if n.Newest? || |cmds| <= n.n then c1 else HandleUpTo(c1, cmds, n.n, ReadEnd(n.n, |cmds|), w)
  }

  class CanvasApi {
    var connected: bool
    var cursor: Cursor
    var applied: seq<nat>
    var replies: seq<Reply>

    function View(): Canvas
      reads this
    {
      Canvas(connected, cursor, applied, replies)
    }

    constructor (replies: seq<Reply>)
      ensures View() == Canvas(false, Unset, [], replies)
    {
      connected, cursor, applied, this.replies := false, Unset, [], replies;
    }

    method Connect(length: nat, pingOk: bool, lastOk: bool)
      modifies this
      ensures View() == Connected(old(View()), length, pingOk, lastOk)
    {
      if !connected && pingOk {
        connected := true;
        if cursor == Unset {
          cursor := if lastOk then At(length) else Newest;
        }
      }
    }

    method Handle(cmds: seq<Command>, p: nat, w: World)
      requires p < |cmds| <= |w.outcomes|
      modifies this
      ensures View() == HandleOne(old(View()), cmds, p, w)
    {
      cursor := At(p + 1);
      applied := applied + [p];
      if p in w.sent {
        replies := replies + [ReplyTo(cmds[p], w.outcomes[p])];
      } else {
        connected := false;
      }
    }

    method DrainCommands(cmds: seq<Command>, w: World, pingOk: bool, lastOk: bool, readOk: bool) returns (handled: nat)
      requires |cmds| <= |w.outcomes|
      modifies this
      ensures View() == Drained(old(View()), cmds, w, pingOk, lastOk, readOk)
      ensures handled == |applied| - |old(applied)|
    {
      handled := 0;
      Connect(|cmds|, pingOk, lastOk);
      if !connected {
        return;
      }
      if !readOk {
        connected := false;
        return;
      }
      var from := if cursor == Unset then At(0) else cursor;
      if from == Newest || |cmds| <= from.n {
        return;
      }
      ghost var c := View();
      var end := ReadEnd(from.n, |cmds|);
      for p := from.n to end
        invariant View() == HandleUpTo(c, cmds, from.n, p, w)
        invariant handled == p - from.n == |applied| - |old(applied)|
      {
        Handle(cmds, p, w);
        handled := handled + 1;
      }
    }
  }

  // --- one wait of a caller ----------------------------------------------------------------

  /** What one read of the reply stream finds: its entries, or a failure. */
  type ReadResult = Option<seq<Reply>>

  datatype Answer = Answered(outcome: Outcome) | Broken | NoReply

  /** The first reply to a request between two places, if any. */
  function FirstReply(replies: seq<Reply>, id: RequestId, lo: nat, hi: nat): (r: Option<nat>)
    requires lo <= hi <= |replies|
    ensures r.Some? ==> lo <= r.value < hi && replies[r.value].id == id
    ensures forall k :: lo <= k < (if r.Some? then r.value else hi) ==> replies[k].id != id
    decreases hi - lo
  {
    if lo == hi then None
    else if replies[lo].id == id then Some(lo)
    else FirstReply(replies, id, lo + 1, hi)
  }

  /** Reading again and again until the deadline: `finds` is the reply stream as each read finds
      it, `None` a read that fails. */
  function WaitReply(id: RequestId, cursor: nat, finds: seq<ReadResult>): Answer
    decreases |finds|
  {
    if finds == [] then NoReply
    else if finds[0].None? then Broken
    else
      var replies := finds[0].value;
      if |replies| <= cursor then WaitReply(id, cursor, finds[1..])
      else
        var end := ReadEnd(cursor, |replies|);
        match FirstReply(replies, id, cursor, end)
        case Some(k) => Answered(replies[k].outcome)
        case None => WaitReply(id, end, finds[1..])
  }

  method Scan(replies: seq<Reply>, id: RequestId, lo: nat, hi: nat) returns (r: Option<nat>)
    requires lo <= hi <= |replies|
    ensures r == FirstReply(replies, id, lo, hi)
  {
    for k := lo to hi
      invariant FirstReply(replies, id, lo, hi) == FirstReply(replies, id, k, hi)
    {
      if replies[k].id == id {
        return Some(k);
      }
    }
    r := None;
  }

  method Wait(id: RequestId, start: nat, finds: seq<ReadResult>) returns (a: Answer)
    ensures a == WaitReply(id, start, finds)
  {
    var cursor: nat := start;
    var i := 0;
    while i < |finds|
      invariant i <= |finds|
      invariant WaitReply(id, start, finds) == WaitReply(id, cursor, finds[i..])
    {
      if finds[i].None? {
        return Broken;
      }
      var replies := finds[i].value;
      if cursor < |replies| {
        var end := ReadEnd(cursor, |replies|);
        var found := Scan(replies, id, cursor, end);
        if found.Some? {
          return Answered(replies[found.value].outcome);
        }
        cursor := end;
      }
      i := i + 1;
    }
    a := NoReply;
  }

  // --- a call, undisturbed -------------------------------------------------------------------

  lemma {:induction false} HandleUpToMeaning(c: Canvas, cmds: seq<Command>, lo: nat, hi: nat, w: World)
    requires lo <= hi <= |cmds| <= |w.outcomes|
    requires forall p :: lo <= p < hi ==> p in w.sent
    ensures var t := HandleUpTo(c, cmds, lo, hi, w);
            && t.connected == c.connected && t.cursor == (if lo == hi then c.cursor else At(hi))
            && t.applied == c.applied + seq(hi - lo, i requires 0 <= i < hi - lo => lo + i)
            && t.replies == c.replies + seq(hi - lo, i requires 0 <= i < hi - lo => ReplyTo(cmds[lo + i], w.outcomes[lo + i]))
    decreases hi
  {
    if lo != hi { HandleUpToMeaning(c, cmds, lo, hi - 1, w); }
  }

  /** The replies to the commands of a range that could be appended, in order. */
  function SentReplies(cmds: seq<Command>, lo: nat, hi: nat, w: World): seq<Reply>
    requires lo <= hi <= |cmds| <= |w.outcomes|
    decreases hi
  {
    if lo == hi then []
    else SentReplies(cmds, lo, hi - 1, w)
         + if hi - 1 in w.sent then [ReplyTo(cmds[hi - 1], w.outcomes[hi - 1])] else []
  }

  function Places(lo: nat, hi: nat): seq<nat>
    requires lo <= hi
  {
    seq(hi - lo, i requires 0 <= i < hi - lo => lo + i)
  }

  lemma {:induction false} BatchReplies(c: Canvas, cmds: seq<Command>, lo: nat, hi: nat, w: World)
    requires lo <= hi <= |cmds| <= |w.outcomes|
    ensures var t := HandleUpTo(c, cmds, lo, hi, w);
            && t.replies == c.replies + SentReplies(cmds, lo, hi, w)
            && (t.connected <==> c.connected && forall p :: lo <= p < hi ==> p in w.sent)
    decreases hi
  {
    if lo != hi {
      BatchReplies(c, cmds, lo, hi - 1, w);
    } else {
      assert c.replies + [] == c.replies;
    }
  }

  lemma {:induction false} BatchPlaces(c: Canvas, cmds: seq<Command>, lo: nat, hi: nat, w: World)
    requires lo <= hi <= |cmds| <= |w.outcomes|
    ensures var t := HandleUpTo(c, cmds, lo, hi, w);
            && t.cursor == (if lo == hi then c.cursor else At(hi))
            && t.applied == c.applied + Places(lo, hi)
    decreases hi
  {
    if lo != hi {
      BatchPlaces(c, cmds, lo, hi - 1, w);
      assert Places(lo, hi) == Places(lo, hi - 1) + [hi - 1];
    } else {
      assert c.applied + [] == c.applied;
    }
  }

  /** Every reply names its command, and one to a command without an id is not left nameless. */
  lemma {:induction false} RepliesAreNamed(cmds: seq<Command>, lo: nat, hi: nat, w: World)
    requires lo <= hi <= |cmds| <= |w.outcomes|
    ensures forall r :: r in SentReplies(cmds, lo, hi, w) ==>
              r.id != "" && exists p :: lo <= p < hi && p in w.sent && r.outcome == w.outcomes[p]
                                        && (cmds[p].id != "" ==> r.id == cmds[p].id)
    decreases hi
  {
    if lo < hi { RepliesAreNamed(cmds, lo, hi - 1, w); }
  }

  /** Where a drain reads from: where the canvas is, or, the first time, where it attaches. */
  function From(c: Canvas, length: nat, lastOk: bool): Cursor {
    if c.connected || !c.cursor.Unset? then c.cursor else if lastOk then At(length) else Newest
  }

  /** What a drain comes to. Without a connection nothing changes. A read that fails loses the
      connection and leaves the place in the stream. Otherwise the commands from that place on, at
      most sixteen, are applied one by one, the replies that can be appended are, in order, and the
      connection is lost when one cannot. */
  lemma DrainOutcome(c: Canvas, cmds: seq<Command>, w: World, pingOk: bool, lastOk: bool, readOk: bool)
    requires |cmds| <= |w.outcomes| && (c.connected ==> !c.cursor.Unset?)
    ensures var t := Drained(c, cmds, w, pingOk, lastOk, readOk);
            var from := From(c, |cmds|, lastOk);
            if !c.connected && !pingOk then t == c
            else if !readOk then t == Canvas(false, from, c.applied, c.replies)
            else if from.Newest? || from.n >= |cmds| then t == Canvas(true, from, c.applied, c.replies)
            else
              var end := if from.n + 16 <= |cmds| then from.n + 16 else |cmds|;
              t == Canvas(forall p :: from.n <= p < end ==> p in w.sent, At(end),
                          c.applied + Places(from.n, end),
                          c.replies + SentReplies(cmds, from.n, end, w))
  {
    var c1 := Connected(c, |cmds|, pingOk, lastOk);
    var from := From(c, |cmds|, lastOk);
    if (c.connected || pingOk) && readOk && from.At? && from.n < |cmds| {
      BatchPlaces(c1, cmds, from.n, ReadEnd(from.n, |cmds|), w);
      BatchReplies(c1, cmds, from.n, ReadEnd(from.n, |cmds|), w);
    }
  }

  /** Reads that all find the same replies get through sixteen of them each: the wait is answered
      with the first reply to its request among those, or goes on behind them. */
  lemma {:induction false} WaitReads(id: RequestId, start: nat, replies: seq<Reply>, n: nat, later: seq<ReadResult>)
    requires start <= |replies|
    ensures var end := if start + 16 * n <= |replies| then start + 16 * n else |replies|;
            var finds := seq(n, i requires 0 <= i < n => Some(replies));
            WaitReply(id, start, finds + later) ==
              match FirstReply(replies, id, start, end)
              case Some(k) => Answered(replies[k].outcome)
              case None => WaitReply(id, end, later)
    decreases n
  {
    var finds := seq(n, i requires 0 <= i < n => Some(replies));
    if n == 0 {
      assert finds + later == later;
    } else {
      var rest := seq(n - 1, i requires 0 <= i < n - 1 => Some(replies));
      assert (finds + later)[1..] == rest + later;
      var end := ReadEnd(start, |replies|);
      WaitReads(id, end, replies, n - 1, later);
      FirstReplySplit(replies, id, start, end, if start + 16 * n <= |replies| then start + 16 * n else |replies|);
    }
  }

  lemma {:induction false} FirstReplySplit(replies: seq<Reply>, id: RequestId, lo: nat, mid: nat, hi: nat)
    requires lo <= mid <= hi <= |replies|
    ensures FirstReply(replies, id, lo, hi) ==
              if FirstReply(replies, id, lo, mid).Some? then FirstReply(replies, id, lo, mid)
              else FirstReply(replies, id, mid, hi)
    decreases mid - lo
  {
    if lo < mid && replies[lo].id != id { FirstReplySplit(replies, id, lo + 1, mid, hi); }
  }

  /** A wait over n reads that all go through and find the same replies is answered with the first
      reply to its request if and only if it is among the first 16 n behind its cursor, and gives up
      otherwise; with a read that fails next it is told that instead. */
  lemma WaitAnsweredIff(id: RequestId, start: nat, replies: seq<Reply>, n: nat, k: nat)
    requires start <= k < |replies| && replies[k].id == id && forall j :: start <= j < k ==> replies[j].id != id
    ensures var finds := seq(n, i requires 0 <= i < n => Some(replies));
            && WaitReply(id, start, finds) == (if k < start + 16 * n then Answered(replies[k].outcome) else NoReply)
            && WaitReply(id, start, finds + [None]) == (if k < start + 16 * n then Answered(replies[k].outcome) else Broken)
  {
    var finds := seq(n, i requires 0 <= i < n => Some(replies));
    assert finds + [] == finds;
    WaitReads(id, start, replies, n, []);
    WaitReads(id, start, replies, n, [None]);
  }

  /** A call to a canvas that is less than a batch behind comes back, after one drain and one read,
      with the outcome of its own command, whatever else was waiting. */
  lemma CallComesBack(c: Canvas, cmds: seq<Command>, w: World, pingOk: bool, lastOk: bool)
    requires |cmds| > 0 && |cmds| <= |w.outcomes|
    requires c.connected && c.cursor.At? && c.cursor.n < |cmds| <= c.cursor.n + BATCH
    requires forall p :: c.cursor.n <= p < |cmds| ==> p in w.sent
    requires var own := cmds[|cmds| - 1].id;
             own != "" && own != "unknown" && forall p :: c.cursor.n <= p < |cmds| - 1 ==> cmds[p].id != own
    ensures var t := Drained(c, cmds, w, pingOk, lastOk, true);
            WaitReply(cmds[|cmds| - 1].id, |c.replies|, [Some(t.replies)]) == Answered(w.outcomes[|cmds| - 1])
  {
    var n, last := c.cursor.n, |cmds| - 1;
    var own := cmds[last].id;
    var t := Drained(c, cmds, w, pingOk, lastOk, true);
    HandleUpToMeaning(c, cmds, n, |cmds|, w);
    var start := |c.replies|;
    assert forall k :: start <= k < |t.replies| ==> t.replies[k] == ReplyTo(cmds[n + (k - start)], w.outcomes[n + (k - start)]);
    assert |t.replies| == start + |cmds| - n && t.replies[|t.replies| - 1] == Reply(own, w.outcomes[last]);
    WaitFindsLast(own, start, t.replies);
  }

  lemma WaitFindsLast(id: RequestId, start: nat, replies: seq<Reply>)
    requires start < |replies| <= start + BATCH && replies[|replies| - 1].id == id
    requires forall k :: start <= k < |replies| - 1 ==> replies[k].id != id
    ensures WaitReply(id, start, [Some(replies)]) == Answered(replies[|replies| - 1].outcome)
  {
    assert FirstReply(replies, id, start, |replies|) == Some(|replies| - 1);
  }
}
