/**
  The widget registry: a forest whose parent and child links are kept in two places.

  Widgets are objects that the host changes in place (`WidgetHost`). `Forest` is what the registry
  looks like as a value; creating, deleting and moving are stated on it, with exactly the cases in
  which the forest survives them.
 */
module WidgetForest {
  import opened Wrappers

  type Tag = string

  /** What the registry knows of a widget; `value` stands for everything but its links. */
  datatype Node = Node(parent: Option<Tag>, children: seq<Tag>, value: int)

  type Forest = map<Tag, Node>

  // --- well-formed forests -----------------------------------------------------

  ghost predicate ListsAreSets(g: Forest) {
    forall t :: t in g ==> NoDup(g[t].children)
  }

  /** Every child listed is registered and has the lister as its parent. */
  ghost predicate ListedAreChildren(g: Forest) {
    forall t, c :: t in g && c in g[t].children ==> c in g && g[c].parent == Some(t)
  }

  /** Every widget is listed by its parent when that is registered. */
  ghost predicate ChildrenAreListed(g: Forest) {
    forall t :: t in g && g[t].parent.Some? && g[t].parent.value in g ==> t in g[g[t].parent.value].children
  }

  /** Child lists are duplicate-free and match the parent links of registered parents. */
  ghost predicate Linked(g: Forest) {
    ListsAreSets(g) && ListedAreChildren(g) && ChildrenAreListed(g)
  }

  /** d rises along every parent link, so there are no cycles. */
  ghost predicate Ranked(g: Forest, d: map<Tag, nat>) {
    && (forall t :: t in g ==> t in d)
    && (forall t :: t in g && g[t].parent.Some? && g[t].parent.value in g ==> d[g[t].parent.value] < d[t])
  }

  ghost predicate WellFormed(g: Forest) {
    Linked(g) && exists d :: Ranked(g, d)
  }

  /** t is r or one of its descendants. */
  ghost predicate Under(g: Forest, d: map<Tag, nat>, t: Tag, r: Tag)
    requires Ranked(g, d) && t in g
    decreases d[t]
  {
    t == r || (g[t].parent.Some? && g[t].parent.value in g && Under(g, d, g[t].parent.value, r))
  }

  ghost function Subtree(g: Forest, d: map<Tag, nat>, r: Tag): set<Tag>
    requires Ranked(g, d)
  {
    set t | t in g && Under(g, d, t, r)
  }

  /** The subtree does not depend on which ranking shows that there are no cycles. */
  lemma {:induction false} UnderIsUnique(g: Forest, d: map<Tag, nat>, e: map<Tag, nat>, t: Tag, r: Tag)
    requires Ranked(g, d) && Ranked(g, e) && t in g
    ensures Under(g, d, t, r) == Under(g, e, t, r)
    decreases d[t]
  {
    if t != r && g[t].parent.Some? && g[t].parent.value in g {
      UnderIsUnique(g, d, e, g[t].parent.value, r);
    }
  }

  // --- lists of tags -----------------------------------------------------------

  function Without(s: seq<Tag>, gone: set<Tag>): (r: seq<Tag>)
    ensures forall x :: x in r <==> x in s && x !in gone
  {
    if s == [] then []
    else (if s[0] in gone then [] else [s[0]]) + Without(s[1..], gone)
  }

  function RemoveFirst(s: seq<Tag>, x: Tag): seq<Tag> {
    if s == [] then [] else if s[0] == x then s[1..] else [s[0]] + RemoveFirst(s[1..], x)
  }

  lemma NoDupTail(s: seq<Tag>)
    requires NoDup(s) && s != []
    ensures NoDup(s[1..]) && s[0] !in s[1..]
  {
    forall i, j | 0 <= i < j < |s[1..]| ensures s[1..][i] != s[1..][j] { assert s[i + 1] != s[j + 1]; }
    forall i | 0 <= i < |s[1..]| ensures s[1..][i] != s[0] { assert s[i + 1] != s[0]; }
  }

  lemma {:induction false} WithoutNone(s: seq<Tag>, gone: set<Tag>)
    requires forall x :: x in s ==> x !in gone
    ensures Without(s, gone) == s
  {
    if s != [] { WithoutNone(s[1..], gone); }
  }

  lemma {:induction false} WithoutAll(s: seq<Tag>, gone: set<Tag>)
    requires forall x :: x in s ==> x in gone
    ensures Without(s, gone) == []
  {
    if s != [] { WithoutAll(s[1..], gone); }
  }

  lemma WithoutHead(x: Tag, s: seq<Tag>, gone: set<Tag>)
    ensures Without([x] + s, gone) == (if x in gone then [] else [x]) + Without(s, gone)
  {
    assert ([x] + s)[1..] == s;
  }

  lemma {:induction false} WithoutTwice(s: seq<Tag>, a: set<Tag>, b: set<Tag>)
    ensures Without(Without(s, a), b) == Without(s, a + b)
  {
    if s != [] {
      var x, rest := s[0], s[1..];
      WithoutTwice(rest, a, b);
      if x in a {
        assert Without(s, a) == Without(rest, a) && Without(s, a + b) == Without(rest, a + b);
      } else {
        assert Without(s, a) == [x] + Without(rest, a);
        WithoutHead(x, Without(rest, a), b);
      }
    }
  }

  lemma {:induction false} WithoutKeepsNoDup(s: seq<Tag>, gone: set<Tag>)
    requires NoDup(s)
    ensures NoDup(Without(s, gone))
  {
    if s != [] {
      NoDupTail(s);
      WithoutKeepsNoDup(s[1..], gone);
    }
  }

  lemma {:induction false} RemoveFirstIsWithout(s: seq<Tag>, x: Tag)
    requires NoDup(s)
    ensures RemoveFirst(s, x) == Without(s, {x})
  {
    if s != [] {
      NoDupTail(s);
      if s[0] == x { WithoutNone(s[1..], {x}); } else { RemoveFirstIsWithout(s[1..], x); }
    }
  }

  // --- deletion ----------------------------------------------------------------

  /** The registry without some of its widgets, their names taken off the child lists that remain. */
  function Prune(g: Forest, gone: set<Tag>): Forest {
    map t | t in g && t !in gone :: g[t].(children := Without(g[t].children, gone))
  }

  /** A set of widgets that holds all children of its members. */
  ghost predicate Closed(g: Forest, gone: set<Tag>) {
    forall t :: t in g && g[t].parent.Some? && g[t].parent.value in g && g[t].parent.value in gone ==> t in gone
  }

  lemma PruneKeepsLists(g: Forest, gone: set<Tag>)
    requires ListsAreSets(g)
    ensures ListsAreSets(Prune(g, gone))
  {
    forall t | t in g ensures NoDup(Without(g[t].children, gone)) {
      WithoutKeepsNoDup(g[t].children, gone);
    }
  }

  lemma PruneKeepsLinks(g: Forest, gone: set<Tag>)
    requires ListedAreChildren(g) && ChildrenAreListed(g)
    ensures ListedAreChildren(Prune(g, gone)) && ChildrenAreListed(Prune(g, gone))
  {
  }

  /** Pruning keeps the forest well-formed, under the same ranking. */
  lemma PruneKeepsForest(g: Forest, d: map<Tag, nat>, gone: set<Tag>)
    requires Linked(g) && Ranked(g, d)
    ensures Linked(Prune(g, gone)) && Ranked(Prune(g, gone), d)
  {
    PruneKeepsLists(g, gone);
    PruneKeepsLinks(g, gone);
  }

  lemma PruneTwice(g: Forest, a: set<Tag>, b: set<Tag>)
    ensures Prune(Prune(g, a), b) == Prune(g, a + b)
  {
    forall t | t in g ensures Without(Without(g[t].children, a), b) == Without(g[t].children, a + b) {
      WithoutTwice(g[t].children, a, b);
    }
  }

  /** A widget that survives still has all its ancestors. */
  lemma {:induction false} UnderPruned(g: Forest, d: map<Tag, nat>, gone: set<Tag>, t: Tag, r: Tag)
    requires Ranked(g, d) && Closed(g, gone) && t in g && t !in gone
    requires Ranked(Prune(g, gone), d)
    ensures Under(Prune(g, gone), d, t, r) == Under(g, d, t, r)
    decreases d[t]
  {
    if t != r && g[t].parent.Some? && g[t].parent.value in g {
      UnderPruned(g, d, gone, g[t].parent.value, r);
    }
  }

  lemma SubtreePruned(g: Forest, d: map<Tag, nat>, gone: set<Tag>, r: Tag)
    requires Linked(g) && Ranked(g, d) && Closed(g, gone)
    ensures Ranked(Prune(g, gone), d)
    ensures Subtree(Prune(g, gone), d, r) == Subtree(g, d, r) - gone
  {
    PruneKeepsForest(g, d, gone);
    forall t | t in g && t !in gone ensures Under(Prune(g, gone), d, t, r) == Under(g, d, t, r) {
      UnderPruned(g, d, gone, t, r);
    }
  }

  /** The subtrees of some widgets together. */
  ghost function Subtrees(g: Forest, d: map<Tag, nat>, roots: seq<Tag>): set<Tag>
    requires Ranked(g, d)
  {
    set t, r | t in g && r in roots && Under(g, d, t, r) :: t
  }

  /** A proper descendant hangs below one of the children. */
  lemma {:induction false} UnderAChild(g: Forest, d: map<Tag, nat>, t: Tag, r: Tag) returns (c: Tag)
    requires Linked(g) && Ranked(g, d) && t in g && r in g && Under(g, d, t, r) && t != r
    ensures c in g[r].children && Under(g, d, t, c)
    decreases d[t]
  {
    var p := g[t].parent.value;
    if p == r { c := t; } else { c := UnderAChild(g, d, p, r); }
  }

  lemma {:induction false} UnderTransitive(g: Forest, d: map<Tag, nat>, t: Tag, c: Tag, r: Tag)
    requires Ranked(g, d) && t in g && c in g && Under(g, d, t, c) && Under(g, d, c, r)
    ensures Under(g, d, t, r)
    decreases d[t]
  {
    if t != c { UnderTransitive(g, d, g[t].parent.value, c, r); }
  }

  lemma {:induction false} UnderRanks(g: Forest, d: map<Tag, nat>, t: Tag, r: Tag)
    requires Ranked(g, d) && t in g && r in g && Under(g, d, t, r)
    ensures t == r || d[r] < d[t]
    decreases d[t]
  {
    if t != r { UnderRanks(g, d, g[t].parent.value, r); }
  }

  /** The strict descendants of a widget are the subtrees of its children. */
  lemma ChildrenMakeSubtree(g: Forest, d: map<Tag, nat>, r: Tag)
    requires Linked(g) && Ranked(g, d) && r in g
    ensures Subtrees(g, d, g[r].children) == Subtree(g, d, r) - {r}
  {
    forall t | t in g && t != r && Under(g, d, t, r) ensures t in Subtrees(g, d, g[r].children) {
      var c := UnderAChild(g, d, t, r);
    }
    forall t | t in Subtrees(g, d, g[r].children) ensures t in g && t != r && Under(g, d, t, r) {
      var c :| c in g[r].children && Under(g, d, t, c);
      assert Under(g, d, c, r) by { assert Under(g, d, r, r); }
      UnderTransitive(g, d, t, c, r);
      UnderRanks(g, d, t, c);
    }
  }

  lemma {:induction false} WithoutSame(s: seq<Tag>, a: set<Tag>, b: set<Tag>)
    requires forall x :: x in s ==> (x in a <==> x in b)
    ensures Without(s, a) == Without(s, b)
  {
    if s != [] { WithoutSame(s[1..], a, b); }
  }

  // --- creation ----------------------------------------------------------------

  /** A new widget under a tag, replacing any that had it, and appended to its registered parent. */
  function Created(g: Forest, tag: Tag, parent: Option<Tag>, value: int): Forest {
    var g1 := g[tag := Node(parent, [], value)];
    if parent.Some? && parent.value in g1 && tag !in g1[parent.value].children
    then g1[parent.value := g1[parent.value].(children := g1[parent.value].children + [tag])]
    else g1
  }

  /** What a creation makes of each widget: the new one has its parent and value and no children, it
      stands last in the list of a registered parent that did not name it yet, and nothing else
      changes. A widget that is its own parent comes to be its own only child. */
  lemma CreateEffect(g: Forest, tag: Tag, parent: Option<Tag>, value: int)
    ensures var t := Created(g, tag, parent, value);
            && t.Keys == g.Keys + {tag}
            && t[tag] == Node(parent, if parent == Some(tag) then [tag] else [], value)
            && forall x :: x in g && x != tag ==>
                 && t[x].parent == g[x].parent && t[x].value == g[x].value && g[x].children <= t[x].children
                 && t[x].children[|g[x].children|..] ==
                      (if parent == Some(x) && tag !in g[x].children then [tag] else [])
  {
  }

  /** No widget already names the tag as its parent, the widget is not its own parent, and if
      the tag is taken by a child of a registered widget it stays that widget's child. */
  ghost predicate MayCreate(g: Forest, tag: Tag, parent: Option<Tag>) {
    && parent != Some(tag)
    && (forall t :: t in g && t != tag ==> g[t].parent != Some(tag))
    && (tag in g && g[tag].parent.Some? && g[tag].parent.value in g ==> parent == g[tag].parent)
  }

  lemma NamedByNoneHasNone(g: Forest, d: map<Tag, nat>, tag: Tag)
    requires Linked(g) && Ranked(g, d) && tag in g
    requires forall t :: t in g && t != tag ==> g[t].parent != Some(tag)
    ensures g[tag].children == []
  {
    var kids := g[tag].children;
    assert kids == [] || kids[0] in kids;
    assert tag !in kids;
    assert forall c :: c in g ==> c !in kids;
  }

  lemma CreateLinks(g: Forest, d: map<Tag, nat>, tag: Tag, parent: Option<Tag>, value: int)
    requires Linked(g) && Ranked(g, d) && MayCreate(g, tag, parent)
    ensures Linked(Created(g, tag, parent, value))
  {
    var t := Created(g, tag, parent, value);
    if parent.Some? && parent.value in g && tag !in g[parent.value].children {
      assert NoDup(g[parent.value].children + [tag]);
    }
    if tag in g { NamedByNoneHasNone(g, d, tag); }
    assert forall s :: s in g && s != tag && Some(s) != parent ==> t[s] == g[s];
  }

  lemma CreateRanks(g: Forest, d: map<Tag, nat>, tag: Tag, parent: Option<Tag>, value: int)
    requires Ranked(g, d) && MayCreate(g, tag, parent)
    ensures exists e :: Ranked(Created(g, tag, parent, value), e)
  {
    var e := d[tag := if parent.Some? && parent.value in g then d[parent.value] + 1 else 0];
    assert Ranked(Created(g, tag, parent, value), e);
  }

  lemma CreateNeedsFreeTag(g: Forest, d: map<Tag, nat>, e: map<Tag, nat>, tag: Tag, parent: Option<Tag>, value: int)
    requires Linked(g) && Ranked(g, d) && Linked(Created(g, tag, parent, value)) && Ranked(Created(g, tag, parent, value), e)
    ensures MayCreate(g, tag, parent)
  {
    var t := Created(g, tag, parent, value);
    forall x | x in g && x != tag ensures g[x].parent != Some(tag) {
      assert x in t && t[x].parent == g[x].parent;
    }
    assert forall q :: q in g && q != tag && tag in g[q].children ==> tag in t[q].children;
  }

  /** Creating keeps the forest well-formed if and only if the tag may be used in that place. */
  lemma CreateKeepsForestIff(g: Forest, tag: Tag, parent: Option<Tag>, value: int)
    requires WellFormed(g)
    ensures WellFormed(Created(g, tag, parent, value)) <==> MayCreate(g, tag, parent)
  {
    var d :| Ranked(g, d);
    if MayCreate(g, tag, parent) {
      CreateLinks(g, d, tag, parent, value);
      CreateRanks(g, d, tag, parent, value);
    }
    if WellFormed(Created(g, tag, parent, value)) {
      var e :| Ranked(Created(g, tag, parent, value), e);
      CreateNeedsFreeTag(g, d, e, tag, parent, value);
    }
  }

  // --- moving ------------------------------------------------------------------

  /** Where a widget goes in a list of siblings: before a named one if it is there, else last. */
  function PlaceBefore(siblings: seq<Tag>, tag: Tag, before: Option<Tag>): seq<Tag> {
    if before.None? || before.value !in siblings then siblings + [tag]
    else if siblings[0] == before.value then [tag] + siblings
    else [siblings[0]] + PlaceBefore(siblings[1..], tag, before)
  }

  function TakenOff(g: Forest, tag: Tag, parent: Option<Tag>): Forest {
    if parent.Some? && parent.value in g && tag in g[parent.value].children
    then g[parent.value := g[parent.value].(children := RemoveFirst(g[parent.value].children, tag))]
    else g
  }

  /** A widget placed among the children of its parent, where it may already stand elsewhere. */
  function Inserted(g: Forest, tag: Tag, parent: Option<Tag>, before: Option<Tag>): Forest {
    if parent.Some? && parent.value in g then
      var g1 := TakenOff(g, tag, parent);
      var p := parent.value;
      g1[p := g1[p].(children := PlaceBefore(g1[p].children, tag, before))]
    else g
  }

  /** A widget taken off its old parent and given the new one, which does not list it yet. */
  function Reparented(g: Forest, tag: Tag, parent: Option<Tag>): Forest
    requires tag in g
  {
    var g1 := TakenOff(g, tag, g[tag].parent);
    g1[tag := g1[tag].(parent := parent)]
  }

  /** A widget taken off its old parent, given the new one and placed there. */
  function Moved(g: Forest, tag: Tag, parent: Option<Tag>, before: Option<Tag>): Forest {
    if tag !in g then g
    else Inserted(Reparented(g, tag, parent), tag, parent, before)
  }

  lemma {:induction false} PlaceBeforeMembers(siblings: seq<Tag>, tag: Tag, before: Option<Tag>)
    requires NoDup(siblings) && tag !in siblings
    ensures NoDup(PlaceBefore(siblings, tag, before))
    ensures forall x :: x in PlaceBefore(siblings, tag, before) <==> x in siblings || x == tag
  {
    if before.Some? && before.value in siblings {
      NoDupTail(siblings);
      if siblings[0] != before.value { PlaceBeforeMembers(siblings[1..], tag, before); }
    }
  }

  lemma RemoveHead(x: Tag, s: seq<Tag>)
    ensures RemoveFirst([x] + s, x) == s
  {
    assert ([x] + s)[1..] == s;
  }

  lemma RemoveLater(x: Tag, s: seq<Tag>, tag: Tag)
    requires x != tag
    ensures RemoveFirst([x] + s, tag) == [x] + RemoveFirst(s, tag)
  {
    assert ([x] + s)[1..] == s;
  }

  /** The widget stands directly before the named sibling, or last when there is none such,
      and taking it out again gives back the other siblings in their order. */
  lemma {:induction false} PlaceBeforeMeaning(siblings: seq<Tag>, tag: Tag, before: Option<Tag>) returns (k: nat)
    requires tag !in siblings
    ensures var placed := PlaceBefore(siblings, tag, before);
            && |placed| == |siblings| + 1 && k < |placed| && placed[k] == tag
            && placed == siblings[..k] + [tag] + siblings[k..]
            && RemoveFirst(placed, tag) == siblings
            && (if before.Some? && before.value in siblings then k < |siblings| && siblings[k] == before.value
                else k == |siblings|)
  {
    var placed := PlaceBefore(siblings, tag, before);
    if before.None? || before.value !in siblings {
      k := |siblings|;
      RemoveLast(siblings, tag);
    } else if siblings[0] == before.value {
      k := 0;
      RemoveHead(tag, siblings);
    } else {
      var rest := siblings[1..];
      var j := PlaceBeforeMeaning(rest, tag, before);
      k := j + 1;
      assert siblings == [siblings[0]] + rest;
      RemoveLater(siblings[0], PlaceBefore(rest, tag, before), tag);
    }
  }

  lemma {:induction false} RemoveLast(siblings: seq<Tag>, tag: Tag)
    requires tag !in siblings
    ensures RemoveFirst(siblings + [tag], tag) == siblings
  {
    if siblings == [] {
      assert siblings + [tag] == [tag];
    } else {
      assert (siblings + [tag])[1..] == siblings[1..] + [tag];
      RemoveLast(siblings[1..], tag);
    }
  }

  /** The target is not the widget itself nor below it. */
  ghost predicate MayMove(g: Forest, d: map<Tag, nat>, tag: Tag, parent: Option<Tag>)
    requires Ranked(g, d)
  {
    parent.Some? && parent.value in g ==> !Under(g, d, parent.value, tag)
  }

  /** Only the parent's list names the widget, so taking it off there takes it off everywhere. */
  lemma TakenOffIsWithout(g: Forest, tag: Tag, parent: Option<Tag>)
    requires forall x :: x in g ==> NoDup(g[x].children)
    requires forall x :: x in g && tag in g[x].children ==> parent == Some(x)
    ensures forall x :: x in g ==> TakenOff(g, tag, parent)[x] == g[x].(children := Without(g[x].children, {tag}))
  {
    forall x | x in g
      ensures RemoveFirst(g[x].children, tag) == Without(g[x].children, {tag})
      ensures tag !in g[x].children ==> Without(g[x].children, {tag}) == g[x].children
    {
      RemoveFirstIsWithout(g[x].children, tag);
      if tag !in g[x].children { WithoutNone(g[x].children, {tag}); }
    }
  }

  /** What a move makes of each widget: the moved one has its new parent, the new parent's list
      names it in the asked place, every other list names it no more. */
  function AfterMove(g: Forest, tag: Tag, parent: Option<Tag>, before: Option<Tag>, x: Tag): Node
    requires x in g
  {
    var others := Without(g[x].children, {tag});
    Node(if x == tag then parent else g[x].parent,
         if parent == Some(x) then PlaceBefore(others, tag, before) else others,
         g[x].value)
  }

  lemma ReparentedEffect(g: Forest, tag: Tag, parent: Option<Tag>)
    requires tag in g && forall x :: x in g ==> NoDup(g[x].children)
    requires forall x :: x in g && tag in g[x].children ==> g[tag].parent == Some(x)
    ensures Reparented(g, tag, parent).Keys == g.Keys
    ensures forall x :: x in g ==>
      Reparented(g, tag, parent)[x]
      == Node(if x == tag then parent else g[x].parent, Without(g[x].children, {tag}), g[x].value)
  {
    TakenOffIsWithout(g, tag, g[tag].parent);
  }

  lemma InsertedEffect(g: Forest, tag: Tag, parent: Option<Tag>, before: Option<Tag>)
    requires forall x :: x in g ==> tag !in g[x].children
    ensures Inserted(g, tag, parent, before).Keys == g.Keys
    ensures forall x :: x in g && parent != Some(x) ==> Inserted(g, tag, parent, before)[x] == g[x]
    ensures parent.Some? && parent.value in g ==>
              var p := g[parent.value];
              Inserted(g, tag, parent, before)[parent.value] == p.(children := PlaceBefore(p.children, tag, before))
  {
  }

  /** A move changes the widget's parent and two child lists, and nothing else. */
  lemma MoveEffect(g: Forest, tag: Tag, parent: Option<Tag>, before: Option<Tag>)
    requires tag in g && forall x :: x in g ==> NoDup(g[x].children)
    requires forall x :: x in g && tag in g[x].children ==> g[tag].parent == Some(x)
    ensures Moved(g, tag, parent, before).Keys == g.Keys
    ensures forall x :: x in g ==> Moved(g, tag, parent, before)[x] == AfterMove(g, tag, parent, before, x)
  {
    ReparentedEffect(g, tag, parent);
    InsertedEffect(Reparented(g, tag, parent), tag, parent, before);
  }

  /** What a child list names after a move. */
  lemma AfterMoveNames(g: Forest, tag: Tag, parent: Option<Tag>, before: Option<Tag>, x: Tag)
    requires x in g && NoDup(g[x].children)
    ensures NoDup(AfterMove(g, tag, parent, before, x).children)
    ensures forall c :: c in AfterMove(g, tag, parent, before, x).children
                        <==> if c == tag then parent == Some(x) else c in g[x].children
  {
    WithoutKeepsNoDup(g[x].children, {tag});
    PlaceBeforeMembers(Without(g[x].children, {tag}), tag, before);
  }

  lemma MovedParents(g: Forest, tag: Tag, parent: Option<Tag>, before: Option<Tag>)
    requires Linked(g) && tag in g
    ensures var m := Moved(g, tag, parent, before);
            && m.Keys == g.Keys && m[tag].parent == parent
            && forall x :: x in g && x != tag ==> m[x].parent == g[x].parent
  {
    MoveEffect(g, tag, parent, before);
  }

  lemma MovedLists(g: Forest, tag: Tag, parent: Option<Tag>, before: Option<Tag>, x: Tag)
    requires Linked(g) && tag in g && x in g
    ensures Moved(g, tag, parent, before).Keys == g.Keys
    ensures NoDup(Moved(g, tag, parent, before)[x].children)
    ensures forall c :: c in Moved(g, tag, parent, before)[x].children
                        <==> if c == tag then parent == Some(x) else c in g[x].children
  {
    MoveEffect(g, tag, parent, before);
    AfterMoveNames(g, tag, parent, before, x);
  }

  lemma NamesFollowParents(g: Forest, m: Forest, tag: Tag, parent: Option<Tag>)
    requires ListedAreChildren(g) && ChildrenAreListed(g) && tag in g
    requires m.Keys == g.Keys && m[tag].parent == parent
    requires forall x :: x in g && x != tag ==> m[x].parent == g[x].parent
    requires forall x, c :: x in g ==> (c in m[x].children <==> if c == tag then parent == Some(x) else c in g[x].children)
    ensures ListedAreChildren(m) && ChildrenAreListed(m)
  {
  }

  lemma MoveKeepsLinks(g: Forest, tag: Tag, parent: Option<Tag>, before: Option<Tag>)
    requires Linked(g) && tag in g
    ensures Linked(Moved(g, tag, parent, before))
  {
    var m := Moved(g, tag, parent, before);
    MovedParents(g, tag, parent, before);
    forall x | x in g
      ensures NoDup(m[x].children)
      ensures forall c :: c in m[x].children <==> if c == tag then parent == Some(x) else c in g[x].children
    {
      MovedLists(g, tag, parent, before, x);
    }
    NamesFollowParents(g, m, tag, parent);
  }

  lemma LiftedRanks(g: Forest, d: map<Tag, nat>, m: Forest, e: map<Tag, nat>, tag: Tag, parent: Option<Tag>, lift: nat)
    requires Ranked(g, d) && tag in g && MayMove(g, d, tag, parent)
    requires m.Keys == g.Keys && m[tag].parent == parent
    requires forall x :: x in g && x != tag ==> m[x].parent == g[x].parent
    requires parent.Some? && parent.value in g ==> lift > d[parent.value]
    requires e.Keys == g.Keys && forall t :: t in g ==> e[t] == if Under(g, d, t, tag) then d[t] + lift else d[t]
    ensures Ranked(m, e)
  {
    assert Under(g, d, tag, tag);
  }

  /** Lifting the moved subtree above its new parent ranks the moved forest. */
  lemma MoveKeepsRanks(g: Forest, d: map<Tag, nat>, tag: Tag, parent: Option<Tag>, before: Option<Tag>)
    requires Linked(g) && Ranked(g, d) && tag in g && MayMove(g, d, tag, parent)
    ensures WellFormed(Moved(g, tag, parent, before))
  {
    MoveKeepsLinks(g, tag, parent, before);
    MovedParents(g, tag, parent, before);
    var lift := if parent.Some? && parent.value in g then d[parent.value] + 1 else 0;
    var e := map t | t in g :: if Under(g, d, t, tag) then d[t] + lift else d[t];
    LiftedRanks(g, d, Moved(g, tag, parent, before), e, tag, parent, lift);
  }

  lemma {:induction false} DescendantsStayBelow(g: Forest, d: map<Tag, nat>, m: Forest, e: map<Tag, nat>, tag: Tag, t: Tag)
    requires Ranked(g, d) && Ranked(m, e) && t in g && tag in g && Under(g, d, t, tag)
    requires m.Keys == g.Keys && forall x :: x in g && x != tag ==> m[x].parent == g[x].parent
    ensures e[tag] <= e[t]
    decreases d[t]
  {
    if t != tag { DescendantsStayBelow(g, d, m, e, tag, g[t].parent.value); }
  }

  /** Moving keeps the forest well-formed if and only if the target is outside the moved subtree. */
  lemma MoveKeepsForestIff(g: Forest, d: map<Tag, nat>, tag: Tag, parent: Option<Tag>, before: Option<Tag>)
    requires Linked(g) && Ranked(g, d) && tag in g
    ensures WellFormed(Moved(g, tag, parent, before)) <==> MayMove(g, d, tag, parent)
  {
    var m := Moved(g, tag, parent, before);
    MovedParents(g, tag, parent, before);
    if MayMove(g, d, tag, parent) {
      MoveKeepsRanks(g, d, tag, parent, before);
    } else {
      forall e | Ranked(m, e) ensures false {
        DescendantsStayBelow(g, d, m, e, tag, parent.value);
      }
    }
  }

  /** Inserting at the place of the named sibling, or at the end, is what `PlaceBefore` says. */
  lemma {:induction false} PlacedAt(siblings: seq<Tag>, tag: Tag, before: Option<Tag>, k: nat)
    requires k <= |siblings|
    requires if before.Some? && before.value in siblings
             then k < |siblings| && siblings[k] == before.value && before.value !in siblings[..k]
             else k == |siblings|
    ensures siblings[..k] + [tag] + siblings[k..] == PlaceBefore(siblings, tag, before)
  {
    if before.Some? && before.value in siblings {
      if k == 0 {
        assert siblings[..0] + [tag] + siblings[0..] == [tag] + siblings;
      } else {
        assert siblings[0] in siblings[..k] && siblings[1..][k - 1] == before.value;
        forall i | 0 <= i < k - 1 ensures siblings[1..][i] != before.value { assert siblings[i + 1] in siblings[..k]; }
        PlacedAt(siblings[1..], tag, before, k - 1);
        assert siblings[..k] + [tag] + siblings[k..] == [siblings[0]] + (siblings[1..][..k - 1] + [tag] + siblings[1..][k - 1..]);
      }
    }
  }

  /** After a move to a registered parent the widget stands directly before the named sibling, or
      last when there is none such, and the others keep their order. */
  lemma MovedStandsBefore(g: Forest, tag: Tag, parent: Tag, before: Option<Tag>) returns (k: nat)
    requires Linked(g) && tag in g && parent in g
    ensures var others := RemoveFirst(g[parent].children, tag);
            && Moved(g, tag, Some(parent), before).Keys == g.Keys && k <= |others|
            && Moved(g, tag, Some(parent), before)[parent].children == others[..k] + [tag] + others[k..]
            && if before.Some? && before.value in others then k < |others| && others[k] == before.value
               else k == |others|
  {
    MoveEffect(g, tag, Some(parent), before);
    RemoveFirstIsWithout(g[parent].children, tag);
    k := PlaceBeforeMeaning(Without(g[parent].children, {tag}), tag, before);
  }

  // --- deleting child by child --------------------------------------------------

  lemma {:induction false} UnderIsRegistered(g: Forest, d: map<Tag, nat>, t: Tag, r: Tag)
    requires Ranked(g, d) && t in g && Under(g, d, t, r)
    ensures r in g
    decreases d[t]
  {
    if t != r { UnderIsRegistered(g, d, g[t].parent.value, r); }
  }

  lemma PruneNothing(g: Forest)
    ensures Prune(g, {}) == g
  {
    forall t | t in g ensures Without(g[t].children, {}) == g[t].children { WithoutNone(g[t].children, {}); }
  }

  /** What is left after deleting a widget and everything below it, or only what is below it. */
  ghost function Deleted(g: Forest, d: map<Tag, nat>, tag: Tag, childrenOnly: bool): Forest
    requires Ranked(g, d)
  {
    Prune(g, Subtree(g, d, tag) - if childrenOnly then {tag} else {})
  }

  /** What is left after deleting some widgets with everything below them. */
  ghost function DeletedAll(g: Forest, d: map<Tag, nat>, roots: seq<Tag>): Forest
    requires Ranked(g, d)
  {
    Prune(g, Subtrees(g, d, roots))
  }

  lemma DeleteNothing(g: Forest, d: map<Tag, nat>, r: Tag, childrenOnly: bool)
    requires Ranked(g, d)
    ensures r !in g ==> Deleted(g, d, r, childrenOnly) == g
    ensures DeletedAll(g, d, []) == g
  {
    forall t | t in g && Under(g, d, t, r) ensures r in g {
      UnderIsRegistered(g, d, t, r);
    }
    assert r !in g ==> Subtree(g, d, r) - (if childrenOnly then {r} else {}) == {};
    assert Subtrees(g, d, []) == {};
    PruneNothing(g);
  }

  lemma SubtreesClosed(g: Forest, d: map<Tag, nat>, roots: seq<Tag>)
    requires Ranked(g, d)
    ensures Closed(g, Subtrees(g, d, roots))
  {
    forall t | t in g && g[t].parent.Some? && g[t].parent.value in g && g[t].parent.value in Subtrees(g, d, roots)
      ensures t in Subtrees(g, d, roots)
    {
      var r :| r in roots && Under(g, d, g[t].parent.value, r);
      assert Under(g, d, t, r);
    }
  }

  /** Deleting the children one after the other. */
  lemma DeleteNextChild(g: Forest, d: map<Tag, nat>, kids: seq<Tag>, i: nat)
    requires Linked(g) && Ranked(g, d) && i < |kids|
    ensures var sofar := DeletedAll(g, d, kids[..i]);
            && Linked(sofar) && Ranked(sofar, d)
            && Deleted(sofar, d, kids[i], false) == DeletedAll(g, d, kids[..i + 1])
  {
    var gone := Subtrees(g, d, kids[..i]);
    SubtreesClosed(g, d, kids[..i]);
    PruneKeepsForest(g, d, gone);
    SubtreePruned(g, d, gone, kids[i]);
    PruneTwice(g, gone, Subtree(g, d, kids[i]) - gone);
    assert kids[..i + 1] == kids[..i] + [kids[i]];
    assert gone + (Subtree(g, d, kids[i]) - gone) == Subtrees(g, d, kids[..i + 1]);
    assert Subtree(g, d, kids[i]) - gone - {} == Subtree(g, d, kids[i]) - gone;
  }

  /** With its children gone, the widget is dropped by clearing its parent's entry and its own. */
  lemma DropIsPrune(g: Forest, tag: Tag)
    requires Linked(g) && tag in g
    ensures Prune(g, {tag}) == TakenOff(g, tag, g[tag].parent) - {tag}
  {
    TakenOffIsWithout(g, tag, g[tag].parent);
  }

  lemma ChildrenRankHigher(g: Forest, d: map<Tag, nat>, tag: Tag)
    requires Linked(g) && Ranked(g, d) && tag in g
    ensures forall c :: c in g[tag].children ==> c in g && d[tag] < d[c]
  {
    forall c | c in g[tag].children ensures c in g && d[tag] < d[c] { assert g[c].parent == Some(tag); }
  }

  /** Once the strict descendants are gone the widget has no children left to clear. */
  lemma ClearedAlready(g: Forest, d: map<Tag, nat>, tag: Tag)
    requires Linked(g) && Ranked(g, d) && tag in g
    ensures var left := Deleted(g, d, tag, true);
            tag in left && left[tag].children == []
  {
    ChildrenRankHigher(g, d, tag);
    var kids := g[tag].children;
    forall c | c in kids ensures c in Subtree(g, d, tag) - {tag} { assert Under(g, d, tag, tag); }
    WithoutAll(kids, Subtree(g, d, tag) - {tag});
  }

  /** Dropping the widget itself after its strict descendants removes the subtree. */
  lemma DropLast(g: Forest, d: map<Tag, nat>, tag: Tag)
    requires Linked(g) && Ranked(g, d) && tag in g
    ensures var left := Deleted(g, d, tag, true);
            tag in left && TakenOff(left, tag, left[tag].parent) - {tag} == Deleted(g, d, tag, false)
  {
    var gone := Subtree(g, d, tag) - {tag};
    PruneKeepsForest(g, d, gone);
    DropIsPrune(Prune(g, gone), tag);
    PruneTwice(g, gone, {tag});
    assert Under(g, d, tag, tag);
    assert gone + {tag} == Subtree(g, d, tag) - {};
  }

  /** Deleting the children one after the other leaves the widget with nothing to clear. */
  lemma DeleteChildrenStep(g: Forest, d: map<Tag, nat>, tag: Tag)
    requires Linked(g) && Ranked(g, d) && tag in g
    ensures DeletedAll(g, d, g[tag].children) == Deleted(g, d, tag, true)
    ensures forall c :: c in g[tag].children ==> c in g && d[tag] < d[c]
    ensures var left := Deleted(g, d, tag, true); tag in left && left[tag].children == []
  {
    ChildrenMakeSubtree(g, d, tag);
    ChildrenRankHigher(g, d, tag);
    ClearedAlready(g, d, tag);
  }

  /** Deletion takes the widget and all its descendants, or the strict descendants only. Whoever is
      left keeps its parent, its value and its children in their order, except that the deleted
      widget is taken off its parent's list, or that its own list is emptied when it stays. */
  lemma DeletedExactly(g: Forest, d: map<Tag, nat>, tag: Tag, childrenOnly: bool, t: Tag)
    requires Linked(g) && Ranked(g, d) && t in g
    ensures var left := Deleted(g, d, tag, childrenOnly);
            && (t in left <==> !Under(g, d, t, tag) || (childrenOnly && t == tag))
            && (t in left && t == tag ==> left[t] == g[t].(children := []))
            && (t in left && t != tag && (childrenOnly || tag !in g[t].children) ==> left[t] == g[t])
            && (t in left && t != tag && !childrenOnly ==> left[t] == g[t].(children := RemoveFirst(g[t].children, tag)))
  {
    var gone := Subtree(g, d, tag) - if childrenOnly then {tag} else {};
    var kids := g[t].children;
    if t == tag {
      ClearedAlready(g, d, tag);
    } else if t !in gone {
      forall c | c in kids ensures c in gone <==> c == tag && !childrenOnly {
        assert g[c].parent == Some(t);
        assert c == tag ==> Under(g, d, c, tag);
      }
      WithoutSame(kids, gone, if childrenOnly then {} else {tag});
      RemoveFirstIsWithout(kids, tag);
      WithoutNone(kids, {});
      if tag !in kids { WithoutNone(kids, {tag}); }
    }
  }

  /** What a deletion leaves is well-formed and does not depend on the ranking it is stated with. */
  lemma DeletedIsOne(g: Forest, d: map<Tag, nat>, tag: Tag, childrenOnly: bool)
    requires Linked(g) && Ranked(g, d)
    ensures WellFormed(Deleted(g, d, tag, childrenOnly))
    ensures forall e :: Ranked(g, e) ==> Deleted(g, e, tag, childrenOnly) == Deleted(g, d, tag, childrenOnly)
  {
    PruneKeepsForest(g, d, Subtree(g, d, tag) - if childrenOnly then {tag} else {});
    forall e | Ranked(g, e) ensures Subtree(g, e, tag) == Subtree(g, d, tag) {
      forall t | t in g ensures Under(g, d, t, tag) == Under(g, e, t, tag) { UnderIsUnique(g, d, e, t, tag); }
    }
  }

  lemma {:induction false} HighestRank(d: map<Tag, nat>) returns (bound: nat)
    ensures forall t :: t in d ==> d[t] <= bound
    decreases |d|
  {
    if d == map[] {
      bound := 0;
    } else {
      var t :| t in d;
      var rest := d - {t};
      assert d == rest[t := d[t]];
      var b := HighestRank(rest);
      bound := if b < d[t] then d[t] else b;
    }
  }
}
