/** jgame.GRootContainer: the top of the scene, a registry of named views of
    which one is current. Switching views tells the old view it is hidden and
    the new one it is shown. */
module RootContainer {
  import opened Common
  import opened Scene

  /** A view name. Names are looked up in the map by equality of `key`
      (Object.equals), but the "same view" test of setCurrentView is
      reference identity, which `Name` equality models: two names with equal
      keys and different `ref` are equal as keys and not identical. */
  datatype Name = Name(key: string, ref: nat)

  /** The hooks the container calls on a view. */
  datatype ViewEvent = Hidden(view: Node) | Shown(view: Node)

  class GRootContainer {
    var views: map<string, Node>
    var currentViewName: Option<Name>
    /** The viewHidden / viewShown calls made so far, in order. */
    var events: seq<ViewEvent>

    /** Once a view has been added there is a current name (it may since have
        been removed from the map). */
    ghost predicate Valid()
      reads this
    {
      views != map[] ==> currentViewName.Some?
    }

    constructor()
      ensures Valid() && views == map[] && currentViewName == None && events == []
    {
      views, currentViewName, events := map[], None, [];
    }

    /** setCurrentView. An unknown name throws NoSuchElementException and a
        null name NullPointerException (ConcurrentHashMap rejects null keys),
        both before any change. Re-selecting the identical name fires no hook;
        otherwise the old view, if its name is still mapped, is hidden, then
        the new one is shown. */
    method SetCurrentView(name: Option<Name>) returns (r: Outcome)
      modifies this`currentViewName, this`events
      ensures r == Done ==> Valid()
      ensures name.None? ==> r == Threw(NullPointer) && unchanged(this)
      ensures name.Some? && name.value.key !in views ==> r == Threw(NoSuchElement) && unchanged(this)
      ensures name.Some? && name.value.key in views ==>
                && r == Done
                && currentViewName == name
                && events == old(events) + SwitchEvents(views, old(currentViewName), name.value)
    {
      if name.None? {
        return Threw(NullPointer);
      }
      var viewName := name.value;
      if viewName.key !in views {
        return Threw(NoSuchElement);
      }
      var same := name == currentViewName;
      if !same {
        if currentViewName.Some? && currentViewName.value.key in views {
          events := events + [Hidden(views[currentViewName.value.key])];
        }
      }
      currentViewName := name;
      if !same {
        events := events + [Shown(views[viewName.key])];
      }
      r := Done;
    }

    /** addView. A null name or view is rejected with IllegalArgumentException
        before any change. The view is put under the name (replacing an entry
        with an equal key); the first view added becomes current. */
    method AddView(name: Option<Name>, view: Node?) returns (r: Outcome)
      requires Valid()
      modifies this`views, this`currentViewName, this`events
      ensures Valid()
      ensures name.None? || view == null ==> r == Threw(IllegalArgument) && unchanged(this)
      ensures name.Some? && view != null ==>
                && r == Done
                && views == old(views)[name.value.key := view]
                && (old(views) == map[] ==>
                      currentViewName == name
                      && events == old(events) + SwitchEvents(views, old(currentViewName), name.value))
                && (old(views) != map[] ==>
                      currentViewName == old(currentViewName) && events == old(events))
    {
      if name.None? || view == null {
        return Threw(IllegalArgument);
      }
      var first := views == map[];
      views := views[name.value.key := view];
      if first {
        r := SetCurrentView(name);
      } else {
        r := Done;
      }
    }

    /** addViewAndSetCurrent: addView, then setCurrentView. */
    method AddViewAndSetCurrent(name: Option<Name>, view: Node?) returns (r: Outcome)
      requires Valid()
      modifies this`views, this`currentViewName, this`events
      ensures Valid()
      ensures name.None? || view == null ==> r == Threw(IllegalArgument) && unchanged(this)
      ensures name.Some? && view != null ==>
                r == Done && views == old(views)[name.value.key := view] && currentViewName == name
                && views[name.value.key] == view
      // Whether or not addView already selected it, the hooks are those of
      // one switch from the old current name to the new view.
      ensures name.Some? && view != null ==>
                events == old(events) + SwitchEvents(views, old(currentViewName), name.value)
    {
      r := AddView(name, view);
      if r.Threw? {
        return;
      }
      r := SetCurrentView(name);
      assert old(views) == map[] ==> SwitchEvents(views, name, name.value) == [];
    }

    /** componentRemoved(o): every entry whose view is o is removed, the
        others are kept; entries are visited in `order`, the map's iteration
        order. */
    method ComponentRemoved(o: Node, order: seq<string>)
      requires Valid() && NoDup(order) && forall k :: k in order <==> k in views
      modifies this`views
      ensures Valid()
      ensures forall k :: k in views <==> k in old(views) && old(views)[k] != o
      ensures forall k :: k in views ==> views[k] == old(views)[k]
    {
      for i := 0 to |order|
        invariant forall k :: k in views <==> k in old(views) && (k in order[..i] ==> old(views)[k] != o)
        invariant forall k :: k in views ==> views[k] == old(views)[k]
        invariant Valid()
      {
        var k := order[i];
        assert order[..i + 1] == order[..i] + [k];
        assert k !in order[..i];
        if k in views && views[k] == o {
          views := views - {k};
        }
      }
      assert order[..|order|] == order;
    }

    /** getCurrentView: the view under the current name, None if that name is
        no longer mapped; with no current name the lookup of null throws. */
    function GetCurrentView(): (r: Result<Option<Node>>)
      reads this
      ensures r.Err? <==> currentViewName.None?
      ensures r.Err? ==> r.error == NullPointer
      ensures r.Ok? && r.value.Some? ==> currentViewName.value.key in views
                                         && views[currentViewName.value.key] == r.value.value
      ensures r.Ok? && r.value.None? ==> currentViewName.value.key !in views
    {
      match currentViewName
      case None => Err(NullPointer)
      case Some(n) => Ok(if n.key in views then Some(views[n.key]) else None)
    }

    /** getWidth: the widest view, or 0 when there is none (the running max
        starts at 0). Views are visited in `order`. */
    method GetWidth(order: seq<string>) returns (w: real)
      requires forall k :: k in order <==> k in views
      ensures w >= 0.0
      ensures forall k :: k in views ==> views[k].width <= w
      ensures w == 0.0 || exists k :: k in views && views[k].width == w
    {
      w := 0.0;
      for i := 0 to |order|
        invariant w >= 0.0
        invariant forall j :: 0 <= j < i ==> views[order[j]].width <= w
        invariant w == 0.0 || exists k :: k in views && views[k].width == w
      {
        w := Max(w, views[order[i]].width);
      }
      assert forall k :: k in views ==> exists j :: 0 <= j < |order| && order[j] == k;
    }

    /** getHeight: the tallest view, or 0 when there is none. */
    method GetHeight(order: seq<string>) returns (h: real)
      requires forall k :: k in order <==> k in views
      ensures h >= 0.0
      ensures forall k :: k in views ==> views[k].height <= h
      ensures h == 0.0 || exists k :: k in views && views[k].height == h
    {
      h := 0.0;
      for i := 0 to |order|
        invariant h >= 0.0
        invariant forall j :: 0 <= j < i ==> views[order[j]].height <= h
        invariant h == 0.0 || exists k :: k in views && views[k].height == h
      {
        h := Max(h, views[order[i]].height);
      }
      assert forall k :: k in views ==> exists j :: 0 <= j < |order| && order[j] == k;
    }
  }

  /** The hooks setCurrentView fires when switching from `current` to `name`
      (whose key is mapped): none when the name is identical to the current
      one; otherwise Hidden for the old view if its name is still mapped, then
      Shown for the new one. */
  function SwitchEvents(views: map<string, Node>, current: Option<Name>, name: Name): (es: seq<ViewEvent>)
    requires name.key in views
    ensures current == Some(name) ==> es == []
    ensures current != Some(name) ==> |es| >= 1 && es[|es| - 1] == Shown(views[name.key])
    ensures current != Some(name) && current.Some? && current.value.key in views ==>
              es == [Hidden(views[current.value.key]), Shown(views[name.key])]
    ensures current != Some(name) && (current.None? || current.value.key !in views) ==>
              es == [Shown(views[name.key])]
  {
    if current == Some(name) then []
    else if current.Some? && current.value.key in views then
      [Hidden(views[current.value.key]), Shown(views[name.key])]
    else [Shown(views[name.key])]
  }

  /** Selecting a view twice in a row fires its hooks only the first time. */
  method SelectTwice(c: GRootContainer, name: Name) returns (r1: Outcome, r2: Outcome)
    requires c.Valid() && name.key in c.views
    modifies c`currentViewName, c`events
    ensures r1 == Done && r2 == Done && c.currentViewName == Some(name)
    ensures c.events == old(c.events) + SwitchEvents(c.views, old(c.currentViewName), name)
  {
    r1 := c.SetCurrentView(Some(name));
    r2 := c.SetCurrentView(Some(name));
    assert SwitchEvents(c.views, Some(name), name) == [];
  }
}
