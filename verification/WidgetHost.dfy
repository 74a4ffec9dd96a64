/**
  The widget registry as the host holds it: a map of widget objects whose links are rewritten in
  place. Every method is proved to change the registry exactly as `WidgetForest` says.
 */
module WidgetHost {
  import opened Wrappers
  import opened WidgetForest

  class Widget {
    const tag: Tag
    var parent: Option<Tag>
    var children: seq<Tag>
    var value: int

    constructor (tag: Tag, parent: Option<Tag>, value: int)
      ensures this.tag == tag && AsNode() == Node(parent, [], value)
    {
      this.tag, this.parent, this.value := tag, parent, value;
      children := [];
    }

    function AsNode(): Node
      reads this
    {
      Node(parent, children, value)
    }
  }

  /** The same objects, fewer of them. */
  ghost predicate SubMap(a: map<Tag, Widget>, b: map<Tag, Widget>) {
    forall t :: t in a ==> t in b && a[t] == b[t]
  }

  class Host {
    var widgets: map<Tag, Widget>

    ghost predicate Valid()
      reads this, widgets.Values
    {
      forall t :: t in widgets ==> widgets[t].tag == t
    }

    function View(): Forest
      reads this, widgets.Values
    {
      map t | t in widgets :: widgets[t].AsNode()
    }

    constructor ()
      ensures Valid() && View() == map[]
    {
      widgets := map[];
    }

    /** Registers a new widget and links it to its parent when that is registered. */
    method Create(tag: Tag, parent: Option<Tag>, value: int) returns (w: Widget)
      requires Valid()
      modifies this, widgets.Values
      ensures Valid() && fresh(w) && widgets == old(widgets)[tag := w]
      ensures View() == Created(old(View()), tag, parent, value)
    {
      w := new Widget(tag, parent, value);
      widgets := widgets[tag := w];
      assert View() == old(View())[tag := Node(parent, [], value)];
      if parent.Some? && parent.value in widgets {
        var p := widgets[parent.value];
        if tag !in p.children {
          p.children := p.children + [tag];
        }
      }
    }

    /** Takes a widget off a parent's list, if the parent is registered and lists it. */
    method TakeOff(tag: Tag, parent: Option<Tag>)
      requires Valid()
      modifies widgets.Values
      ensures Valid() && View() == TakenOff(old(View()), tag, parent)
    {
      if parent.Some? && parent.value in widgets {
        var p := widgets[parent.value];
        if tag in p.children {
          p.children := RemoveFirst(p.children, tag);
        }
      }
    }

    method Clear(tag: Tag)
      requires Valid() && tag in widgets
      modifies widgets.Values
      ensures Valid() && SubMap(widgets, old(widgets))
      ensures View() == old(View())[tag := old(View())[tag].(children := [])]
    {
      widgets[tag].children := [];
    }

    method Drop(tag: Tag)
      requires Valid() && tag in widgets
      modifies this, widgets.Values
      ensures Valid() && SubMap(widgets, old(widgets))
      ensures View() == TakenOff(old(View()), tag, old(View())[tag].parent) - {tag}
    {
      TakeOff(tag, widgets[tag].parent);
      ghost var g := View();
      widgets := widgets - {tag};
      assert View() == g - {tag};
    }

    /** One turn of the loop over the children of a widget. */
    method DeleteNext(kids: seq<Tag>, i: nat, ghost g: Forest, ghost d: map<Tag, nat>, ghost rank: nat, ghost bound: nat)
      requires Linked(g) && Ranked(g, d) && i < |kids|
      requires Valid() && View() == DeletedAll(g, d, kids[..i])
      requires forall t :: t in d ==> d[t] <= bound
      requires kids[i] in g ==> rank < d[kids[i]]
      requires rank <= bound
      modifies this, widgets.Values
      ensures Valid() && SubMap(widgets, old(widgets))
      ensures View() == DeletedAll(g, d, kids[..i + 1])
      decreases bound - rank + 1, 0
    {
      DeleteNextChild(g, d, kids, i);
      DeleteItem(kids[i], false, d, bound);
    }

    /** Deletes the widgets of a child list one after the other, each with all below it. */
    method DeleteAll(kids: seq<Tag>, ghost d: map<Tag, nat>, ghost rank: nat, ghost bound: nat)
      requires Valid() && Linked(View()) && Ranked(View(), d)
      requires forall t :: t in d ==> d[t] <= bound
      requires forall t :: t in kids && t in widgets ==> rank < d[t]
      requires rank <= bound
      modifies this, widgets.Values
      ensures Valid() && SubMap(widgets, old(widgets))
      ensures View() == DeletedAll(old(View()), d, kids)
      decreases bound - rank + 1, 1
    {
      ghost var g := View();
      DeleteNothing(g, d, "", false);
      var i := 0;
      while i < |kids|
        invariant i <= |kids|
        invariant Valid() && SubMap(widgets, old(widgets))
        invariant View() == DeletedAll(g, d, kids[..i])
      {
        DeleteNext(kids, i, g, d, rank, bound);
        i := i + 1;
      }
      assert kids[..i] == kids;
    }

    method DeleteChildren(tag: Tag, ghost d: map<Tag, nat>, ghost bound: nat)
      requires Valid() && Linked(View()) && Ranked(View(), d) && tag in widgets
      requires forall t :: t in d ==> d[t] <= bound
      modifies this, widgets.Values
      ensures Valid() && SubMap(widgets, old(widgets))
      ensures View() == Deleted(old(View()), d, tag, true)
      decreases bound - d[tag] + 1, 2
    {
      ghost var g := View();
      DeleteChildrenStep(g, d, tag);
      DeleteAll(widgets[tag].children, d, d[tag], bound);
      assert View() == Deleted(g, d, tag, true);
      Clear(tag);
    }

    /** Deletes a widget and everything below it, or only what is below it. */
    method DeleteItem(tag: Tag, childrenOnly: bool, ghost d: map<Tag, nat>, ghost bound: nat)
      requires Valid() && Linked(View()) && Ranked(View(), d)
      requires forall t :: t in d ==> d[t] <= bound
      modifies this, widgets.Values
      ensures Valid() && SubMap(widgets, old(widgets))
      ensures View() == Deleted(old(View()), d, tag, childrenOnly)
      decreases if tag in widgets then bound - d[tag] + 1 else 0, 3
    {
      ghost var g := View();
      DeleteNothing(g, d, tag, childrenOnly);
      if tag in widgets {
        DropLast(g, d, tag);
        DeleteChildren(tag, d, bound);
        if !childrenOnly {
          Drop(tag);
        }
      }
    }

    /** Deletes from a well-formed registry and leaves it well-formed. */
    method Delete(tag: Tag, childrenOnly: bool)
      requires Valid() && WellFormed(View())
      modifies this, widgets.Values
      ensures Valid() && SubMap(widgets, old(widgets)) && WellFormed(View())
      ensures forall d :: Ranked(old(View()), d) ==> View() == Deleted(old(View()), d, tag, childrenOnly)
    {
      ghost var g := View();
      ghost var d :| Ranked(g, d);
      ghost var bound := HighestRank(d);
      DeleteItem(tag, childrenOnly, d, bound);
      DeletedIsOne(g, d, tag, childrenOnly);
    }

    /** Moves a widget under another parent, or under none, before a named sibling or last. */
    method MoveItem(tag: Tag, parent: Option<Tag>, before: Option<Tag>)
      requires Valid()
      modifies widgets.Values
      ensures Valid() && View() == Moved(old(View()), tag, parent, before)
    {
      if tag in widgets {
        var w := widgets[tag];
        TakeOff(tag, w.parent);
        w.parent := parent;
        assert View() == Reparented(old(View()), tag, parent);
        InsertAt(tag, parent, before);
      }
    }

    method InsertAt(tag: Tag, parent: Option<Tag>, before: Option<Tag>)
      requires Valid()
      modifies widgets.Values
      ensures Valid() && View() == Inserted(old(View()), tag, parent, before)
    {
      if parent.Some? && parent.value in widgets {
        TakeOff(tag, parent);
        ghost var g := View();
        var siblings := widgets[parent.value].children;
        var index := |siblings|;
        if before.Some? && before.value in siblings {
          index := IndexOf(siblings, before.value);
        }
        PlacedAt(siblings, tag, before, index);
        widgets[parent.value].children := siblings[..index] + [tag] + siblings[index..];
        assert View() == g[parent.value := g[parent.value].(children := PlaceBefore(siblings, tag, before))];
      }
    }
  }

  /** The first place a tag stands at. */
  method IndexOf(s: seq<Tag>, x: Tag) returns (k: nat)
    requires x in s
    ensures k < |s| && s[k] == x && x !in s[..k]
  {
    k := 0;
    while s[k] != x
      invariant k < |s| && x !in s[..k] && x in s[k..]
      decreases |s| - k
    {
      k := k + 1;
    }
  }
}
