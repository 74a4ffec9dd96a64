/**
  The Supervisor's execution engine: the processes it holds in memory, their hashes under
  RUNNINGNODES, and the NODEEXIT stream, as each operation changes them when nothing comes in
  between. What happens when operations interleave is in `EngineRaces`.
 */
module SupervisorEngine {
  import opened Wrappers

  type Uid = string

  /** A launched node, as the registry and its hash both name it. */
  datatype Managed = Managed(endpoint: string, parameters: string)

  datatype Exit = Exit(uid: Uid, endpoint: string, code: int)

  /** `nodes` is the process registry, `hashes` is RUNNINGNODES, `exits` is NODEEXIT and `flagged`
      holds the ids whose kill switch is set. */
  datatype World = World(nodes: map<Uid, Managed>, hashes: map<Uid, Managed>, exits: seq<Exit>, flagged: set<Uid>)

  datatype KillResult = Killed | Cleared | NoUid | Unknown | Mismatch

  // --- specification ---------------------------------------------------------------

  function Stored(w: World, uid: Uid, m: Managed): World {
    w.(nodes := w.nodes[uid := m])
  }

  function Hashed(w: World, uid: Uid, m: Managed): World {
    w.(hashes := w.hashes[uid := m])
  }

  function Popped(w: World, uid: Uid): World {
    w.(nodes := w.nodes - {uid})
  }

  function Unhashed(w: World, uid: Uid): World {
    w.(hashes := w.hashes - {uid})
  }

  function Flagged(w: World, uid: Uid): World {
    w.(flagged := w.flagged + {uid})
  }

  function Published(w: World, e: Exit): World {
    w.(exits := w.exits + [e])
  }

  /** An empty endpoint matches every node. */
  predicate Matches(endpoint: string, m: Managed) {
    endpoint == "" || m.endpoint == endpoint
  }

  function AfterKill(w: World, endpoint: string, uid: Uid): (World, KillResult) {
    if uid == "" then (w, NoUid)
    else if uid in w.nodes then
      if Matches(endpoint, w.nodes[uid]) then (Unhashed(Popped(Flagged(w, uid), uid), uid), Killed)
      else (w, Mismatch)
    else if uid !in w.hashes then (w, Unknown)
    else if !Matches(endpoint, w.hashes[uid]) then (w, Mismatch)
    else (Unhashed(w, uid), Cleared)
  }

  /** A held process that has exited leaves the registry; if it still has a hash, its exit is
      published and the hash goes. */
  function ReapOne(w: World, uid: Uid, exited: map<Uid, int>): World {
    if uid !in w.nodes || uid !in exited then w
    else
      var gone := Popped(w, uid);
      if uid in w.hashes then Unhashed(Published(gone, Exit(uid, w.nodes[uid].endpoint, exited[uid])), uid) else gone
  }

  function ReapEach(w: World, items: seq<Uid>, exited: map<Uid, int>): World {
    if items == [] then w
    else ReapOne(ReapEach(w, items[..|items| - 1], exited), items[|items| - 1], exited)
  }

  /** Hashes neither held in memory nor reported alive are dropped. */
  function Reconciled(w: World, reported: set<Uid>): World {
    w.(hashes := map u | u in w.hashes && (u in w.nodes || u in reported) :: w.hashes[u])
  }

  function DropEach(hashes: map<Uid, Managed>, keys: seq<Uid>, held: set<Uid>, reported: set<Uid>): map<Uid, Managed> {
    if keys == [] then hashes
    else
      var n := |keys| - 1;
      var rest := DropEach(hashes, keys[..n], held, reported);
      if keys[n] in held || keys[n] in reported then rest else rest - {keys[n]}
  }

  lemma {:induction false} DropEachMeaning(hashes: map<Uid, Managed>, keys: seq<Uid>, held: set<Uid>, reported: set<Uid>)
    ensures DropEach(hashes, keys, held, reported)
         == map u | u in hashes && (u in held || u in reported || u !in keys) :: hashes[u]
  {
    if keys != [] {
      var n := |keys| - 1;
      assert keys == keys[..n] + [keys[n]];
      DropEachMeaning(hashes, keys[..n], held, reported);
    }
  }

  lemma DropNext(hashes: map<Uid, Managed>, keys: seq<Uid>, i: nat, held: set<Uid>, reported: set<Uid>)
    requires i < |keys|
    ensures var rest := DropEach(hashes, keys[..i], held, reported);
            DropEach(hashes, keys[..i + 1], held, reported)
            == if keys[i] in held || keys[i] in reported then rest else rest - {keys[i]}
  {
    assert keys[..i + 1][..i] == keys[..i];
  }

  lemma ReconcileIsDropEach(w: World, keys: seq<Uid>, reported: set<Uid>)
    requires forall u :: u in keys <==> u in w.hashes
    ensures w.(hashes := DropEach(w.hashes, keys, w.nodes.Keys, reported)) == Reconciled(w, reported)
  {
    DropEachMeaning(w.hashes, keys, w.nodes.Keys, reported);
  }

  // --- the engine ------------------------------------------------------------------

  /** A listing of a dictionary: every key, once. */
  ghost predicate Lists(items: seq<Uid>, keys: set<Uid>) {
    NoDup(items) && forall u :: u in items <==> u in keys
  }

  class ExecutionEngine {
    var nodes: map<Uid, Managed>
    var hashes: map<Uid, Managed>
    var exits: seq<Exit>
    var flagged: set<Uid>

    function View(): World
      reads this
    {
      World(nodes, hashes, exits, flagged)
    }

    /** A fresh Supervisor holds nothing and drops the hashes of nodes that report no life. */
    constructor (hashes: map<Uid, Managed>, exits: seq<Exit>, flagged: set<Uid>, keys: seq<Uid>, reported: set<Uid>)
      requires forall u :: u in keys <==> u in hashes
      ensures View() == Reconciled(World(map[], hashes, exits, flagged), reported)
    {
      this.nodes, this.hashes, this.exits, this.flagged := map[], hashes, exits, flagged;
      new;
      var dropped := ReconcileStale(keys, reported);
    }

    /** The uid is freshly drawn by the caller. */
    method Launch(uid: Uid, m: Managed)
      requires uid !in nodes && uid !in hashes
      modifies this
      ensures View() == Hashed(Stored(old(View()), uid, m), uid, m)
    {
      nodes := nodes[uid := m];
      hashes := hashes[uid := m];
    }

    method Kill(endpoint: string, uid: Uid) returns (r: KillResult)
      modifies this
      ensures (View(), r) == AfterKill(old(View()), endpoint, uid)
    {
      if uid == "" {
        return NoUid;
      }
      if uid !in nodes {
        if uid !in hashes {
          return Unknown;
        }
        if endpoint != "" && hashes[uid].endpoint != endpoint {
          return Mismatch;
        }
        hashes := hashes - {uid};
        return Cleared;
      }
      if endpoint != "" && nodes[uid].endpoint != endpoint {
        return Mismatch;
      }
      flagged := flagged + {uid};
      nodes := nodes - {uid};
      hashes := hashes - {uid};
      return Killed;
    }

    /** One pass over the registry as it was when the pass began, then the stale hashes. `exited`
        is what polling answers; `items` and `keys` are the orders in which things are listed. */
    method ReapExits(items: seq<Uid>, exited: map<Uid, int>, keys: seq<Uid>, reported: set<Uid>) returns (reaped: nat)
      requires Lists(items, nodes.Keys)
      requires forall u :: u in keys <==> u in ReapEach(View(), items, exited).hashes
      modifies this
      ensures View() == Reconciled(ReapEach(old(View()), items, exited), reported)
      ensures reaped == |old(nodes)| - |nodes| + |ReapEach(old(View()), items, exited).hashes| - |hashes|
    {
      ghost var w := View();
      reaped := 0;
      for i := 0 to |items|
        invariant View() == ReapEach(w, items[..i], exited)
        invariant reaped == |w.nodes| - |nodes|
        invariant forall u :: u in items[i..] ==> u in nodes
      {
        ReapNext(w, items, i, exited);
        var n := ReapEntry(items[i], exited);
        reaped := reaped + n;
      }
      assert items[..|items|] == items;
      var dropped := ReconcileStale(keys, reported);
      reaped := reaped + dropped;
    }

    /** One entry of the pass: what is left of a process that has exited. */
    method ReapEntry(uid: Uid, exited: map<Uid, int>) returns (n: nat)
      requires uid in nodes
      modifies this
      ensures View() == ReapOne(old(View()), uid, exited)
      ensures n == |old(nodes)| - |nodes| && forall u :: u != uid && u in old(nodes) ==> u in nodes
    {
      n := 0;
      if uid in exited {
        var entry := nodes[uid];
        nodes := nodes - {uid};
        if uid in hashes {
          exits := exits + [Exit(uid, entry.endpoint, exited[uid])];
          hashes := hashes - {uid};
        }
        n := 1;
      }
    }

    /** `keys` is what scanning RUNNINGNODES lists, possibly with repetitions. */
    method ReconcileStale(keys: seq<Uid>, reported: set<Uid>) returns (dropped: nat)
      requires forall u :: u in keys <==> u in hashes
      modifies this`hashes
      ensures View() == Reconciled(old(View()), reported)
      ensures dropped == |old(hashes)| - |hashes|
    {
      ghost var w := View();
      dropped := 0;
      var held := nodes.Keys;
      for i := 0 to |keys|
        invariant hashes == DropEach(w.hashes, keys[..i], held, reported)
        invariant dropped == |w.hashes| - |hashes|
      {
        DropNext(w.hashes, keys, i, held, reported);
        var n := DropIfStale(keys[i], held, reported);
        dropped := dropped + n;
      }
      assert keys[..|keys|] == keys;
      ReconcileIsDropEach(w, keys, reported);
    }

    method DropIfStale(key: Uid, held: set<Uid>, reported: set<Uid>) returns (n: nat)
      modifies this`hashes
      ensures hashes == if key in held || key in reported then old(hashes) else old(hashes) - {key}
      ensures n == |old(hashes)| - |hashes|
    {
      n := 0;
      if key in hashes && key !in held && key !in reported {
        hashes := hashes - {key};
        n := 1;
      }
    }
  }

  lemma ReapNext(w: World, items: seq<Uid>, i: nat, exited: map<Uid, int>)
    requires i < |items|
    ensures items[..i + 1] == items[..i] + [items[i]]
    ensures ReapEach(w, items[..i + 1], exited) == ReapOne(ReapEach(w, items[..i], exited), items[i], exited)
  {
    assert items[..i + 1][..i] == items[..i];
  }

  // --- what a pass comes to -----------------------------------------------------------

  ghost predicate DistinctUids(exits: seq<Exit>) {
    forall i, j :: 0 <= i < j < |exits| ==> exits[i].uid != exits[j].uid
  }

  /** The exit a pass publishes for a process: it was held, it has exited and it had a hash. */
  predicate Died(w: World, e: Exit, exited: map<Uid, int>) {
    e.uid in w.nodes && e.uid in exited && e.uid in w.hashes && e == Exit(e.uid, w.nodes[e.uid].endpoint, exited[e.uid])
  }

  lemma {:induction false} ReapEachMeaning(w: World, items: seq<Uid>, exited: map<Uid, int>)
    requires NoDup(items) && forall u :: u in items ==> u in w.nodes
    ensures var t := ReapEach(w, items, exited);
            && t.flagged == w.flagged
            && t.nodes == (map u | u in w.nodes && !(u in items && u in exited) :: w.nodes[u])
            && t.hashes == (map u | u in w.hashes && !(u in items && u in exited) :: w.hashes[u])
  {
    if items != [] {
      var n := |items| - 1;
      var init := items[..n];
      assert items == init + [items[n]];
      assert items[n] !in init;
      ReapEachMeaning(w, init, exited);
    }
  }

  /** A pass publishes one exit for each held process that died and still had its hash, and for
      nothing else. */
  lemma {:induction false} ReapEachPublishes(w: World, items: seq<Uid>, exited: map<Uid, int>) returns (news: seq<Exit>)
    requires NoDup(items) && forall u :: u in items ==> u in w.nodes
    ensures ReapEach(w, items, exited).exits == w.exits + news
    ensures DistinctUids(news)
    ensures forall e :: e in news <==> e.uid in items && Died(w, e, exited)
  {
    if items == [] {
      news := [];
    } else {
      var n := |items| - 1;
      var init := items[..n];
      assert items == init + [items[n]];
      assert items[n] !in init;
      ReapEachMeaning(w, init, exited);
      var before := ReapEachPublishes(w, init, exited);
      var uid := items[n];
      if uid in exited && uid in w.hashes {
        var e := Exit(uid, w.nodes[uid].endpoint, exited[uid]);
        news := before + [e];
        assert forall x :: x in before ==> x.uid != uid;
      } else {
        news := before;
      }
    }
  }

  /** After an undisturbed pass every hash left is held in memory by a process that was still
      running, or its node reports life; and no hash of such a process or node is lost. */
  lemma PassLeavesNoCorpse(w: World, items: seq<Uid>, exited: map<Uid, int>, reported: set<Uid>)
    requires Lists(items, w.nodes.Keys)
    ensures var t := Reconciled(ReapEach(w, items, exited), reported);
            && (forall u :: u in t.nodes <==> u in w.nodes && u !in exited)
            && (forall u :: u in t.hashes <==> u in w.hashes && if u in w.nodes then u !in exited else u in reported)
            && (forall u :: u in t.hashes ==> u in t.nodes || u in reported)
            && (forall u :: u in t.nodes ==> t.nodes[u] == w.nodes[u])
            && (forall u :: u in t.hashes ==> t.hashes[u] == w.hashes[u]) && t.flagged == w.flagged
  {
    ReapEachMeaning(w, items, exited);
  }

  /** A second pass with the same answers finds nothing to do. */
  lemma PassTwice(w: World, items: seq<Uid>, exited: map<Uid, int>, again: seq<Uid>, reported: set<Uid>)
    requires Lists(items, w.nodes.Keys)
    requires var t := Reconciled(ReapEach(w, items, exited), reported); Lists(again, t.nodes.Keys)
    ensures var t := Reconciled(ReapEach(w, items, exited), reported);
            Reconciled(ReapEach(t, again, exited), reported) == t
  {
    var t := Reconciled(ReapEach(w, items, exited), reported);
    var news := ReapEachPublishes(t, again, exited);
    assert news == [] || news[0] in news;
    PassLeavesNoCorpse(w, items, exited, reported);
    ReapEachMeaning(t, again, exited);
  }

  /** What is known of an id: the process held in memory, or else the hash that is left of one. */
  function Known(w: World, uid: Uid): Option<Managed> {
    if uid in w.nodes then Some(w.nodes[uid])
    else if uid in w.hashes then Some(w.hashes[uid])
    else None
  }

  /** A kill succeeds if and only if the id is given and known and the endpoint is blank or that of
      what is known. Then nothing is left of the id, its kill switch is set if a process was held,
      and nothing else changes; otherwise nothing changes at all, and the answer says why. */
  lemma KillExactly(w: World, endpoint: string, uid: Uid)
    ensures var (t, r) := AfterKill(w, endpoint, uid);
            var known := Known(w, uid);
            var done := uid != "" && known.Some? && (endpoint == "" || endpoint == known.value.endpoint);
            && (r.Killed? || r.Cleared? <==> done)
            && (done ==>
                  && Known(t, uid).None? && (r.Killed? <==> uid in w.nodes)
                  && t.flagged == w.flagged + (if uid in w.nodes then {uid} else {}) && t.exits == w.exits
                  && (forall u :: u != uid ==> (u in t.nodes <==> u in w.nodes) && (u in t.hashes <==> u in w.hashes))
                  && (forall u :: u in t.nodes ==> t.nodes[u] == w.nodes[u])
                  && (forall u :: u in t.hashes ==> t.hashes[u] == w.hashes[u]))
            && (!done ==> t == w && r == if uid == "" then NoUid else if known.None? then Unknown else Mismatch)
  {
  }

  /** Killing takes back a launch, whatever happened to be there before, except for the kill switch. */
  lemma KillUndoesLaunch(w: World, uid: Uid, m: Managed, endpoint: string)
    requires uid != "" && uid !in w.nodes && uid !in w.hashes
    ensures var launched := Hashed(Stored(w, uid, m), uid, m);
            AfterKill(launched, endpoint, uid)
            == if Matches(endpoint, m) then (Flagged(w, uid), Killed) else (launched, Mismatch)
  {
    var launched := Hashed(Stored(w, uid, m), uid, m);
    assert launched.nodes - {uid} == w.nodes && launched.hashes - {uid} == w.hashes;
  }
}
