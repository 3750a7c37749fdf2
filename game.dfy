/** jgame.BaseGame, the parts with logic: the per-frame update traversal,
    the key and mouse bookkeeping of its input adapters, and the Context it
    builds for controllers and listeners (relative mouse point, instance and
    hit-test queries). The window, the frame pump and painting are not part
    of this model. */
module Game {
  import opened Common
  import opened Scene
  import RootContainer

  // ---------------------------------------------------------------------
  // Scene snapshots
  // ---------------------------------------------------------------------

  /** A snapshot of a node and the children the traversal visits, in the
      order it visits them. */
  datatype Tree = Tree(node: Node, kids: seq<Tree>)

  /** The nodes of a tree, each before its descendants. */
  function PreOrder(t: Tree): seq<Node>
    decreases t
  {
    [t.node] + PreOrderAll(t.kids)
  }

  function PreOrderAll(ts: seq<Tree>): seq<Node>
    decreases ts
  {
    if ts == [] then [] else PreOrderAll(ts[..|ts| - 1]) + PreOrder(ts[|ts| - 1])
  }

  /** The nodes of a tree, each after its descendants. */
  function PostOrder(t: Tree): seq<Node>
    decreases t
  {
    PostOrderAll(t.kids) + [t.node]
  }

  function PostOrderAll(ts: seq<Tree>): seq<Node>
    decreases ts
  {
    if ts == [] then [] else PostOrderAll(ts[..|ts| - 1]) + PostOrder(ts[|ts| - 1])
  }

  /** Both orders list the same nodes. */
  lemma {:induction false} PostOrderPermutesPreOrder(t: Tree)
    ensures multiset(PostOrder(t)) == multiset(PreOrder(t))
    decreases t
  {
    PostOrderPermutesPreOrderAll(t.kids);
  }

  lemma {:induction false} PostOrderPermutesPreOrderAll(ts: seq<Tree>)
    ensures multiset(PostOrderAll(ts)) == multiset(PreOrderAll(ts))
    decreases ts
  {
    if ts != [] {
      PostOrderPermutesPreOrderAll(ts[..|ts| - 1]);
      PostOrderPermutesPreOrder(ts[|ts| - 1]);
    }
  }

  /** The tree is the HashSet snapshot updateComponent takes of each node's
      children: every child once, in some order. */
  ghost predicate IsSnapshot(t: Tree)
    reads set n | n in PreOrder(t)
    decreases t
  {
    && NoDup(seq(|t.kids|, i requires 0 <= i < |t.kids| => t.kids[i].node))
    && (forall k :: k in t.kids ==> k.node in t.node.children)
    && (forall c :: c in t.node.children ==> exists k :: k in t.kids && k.node == c)
    && forall i :: 0 <= i < |t.kids| ==> SubtreeIsSnapshot(t, i)
  }

  ghost predicate SubtreeIsSnapshot(t: Tree, i: nat)
    requires i < |t.kids|
    reads set n | n in PreOrder(t)
    decreases t, 0
  {
    PreOrderAllContains(t.kids, i);
    IsSnapshot(t.kids[i])
  }

  lemma PreOrderAllContains(ts: seq<Tree>, i: nat)
    requires i < |ts|
    ensures forall n :: n in PreOrder(ts[i]) ==> n in PreOrderAll(ts)
    decreases ts
  {
    if i < |ts| - 1 {
      PreOrderAllContains(ts[..|ts| - 1], i);
    }
  }

  // ---------------------------------------------------------------------
  // updateComponent / updateGame
  // ---------------------------------------------------------------------

  /** A call updateComponent makes into a node. */
  datatype Visit = NextFrame(n: Node) | InvokeControllers(n: Node) | InvokeListeners(n: Node)

  /** The calls updateComponent(t.node) makes: nextFrame when the node is
      animatable, then each child's update in turn, then the node's
      controllers, then its listeners. */
  function UpdateTrace(t: Tree, animatable: ClassId -> bool): seq<Visit>
    decreases t
  {
    (if animatable(t.node.classId) then [NextFrame(t.node)] else [])
    + UpdateTraceAll(t.kids, animatable)
    + [InvokeControllers(t.node), InvokeListeners(t.node)]
  }

  function UpdateTraceAll(ts: seq<Tree>, animatable: ClassId -> bool): seq<Visit>
    decreases ts
  {
    if ts == [] then [] else UpdateTraceAll(ts[..|ts| - 1], animatable) + UpdateTrace(ts[|ts| - 1], animatable)
  }

  /** One more kid extends both the pre-order and the trace by that kid's. */
  lemma KidsStep(ts: seq<Tree>, i: nat, animatable: ClassId -> bool)
    requires i < |ts|
    ensures UpdateTraceAll(ts[..i + 1], animatable) == UpdateTraceAll(ts[..i], animatable) + UpdateTrace(ts[i], animatable)
    ensures PreOrderAll(ts[..i + 1]) == PreOrderAll(ts[..i]) + PreOrder(ts[i])
  {
    assert ts[..i + 1][..i] == ts[..i];
  }

  lemma AppendAssoc<T>(a: seq<T>, b: seq<T>, c: seq<T>)
    ensures (a + b) + c == a + (b + c)
  {
  }

  lemma TraceShape<T>(o: seq<T>, head: seq<T>, mid: seq<T>, x: T, y: T)
    ensures o + head + mid + [x] + [y] == o + (head + mid + [x, y])
  {
  }

  /** The nodes whose controllers a trace invokes, in order. */
  function ControllerCalls(vs: seq<Visit>): (ns: seq<Node>)
    ensures |ns| <= |vs|
  {
    if vs == [] then []
    else ControllerCalls(vs[..|vs| - 1]) + (if vs[|vs| - 1].InvokeControllers? then [vs[|vs| - 1].n] else [])
  }

  lemma {:induction false} ControllerCallsAppend(a: seq<Visit>, b: seq<Visit>)
    ensures ControllerCalls(a + b) == ControllerCalls(a) + ControllerCalls(b)
    decreases |b|
  {
    if b == [] {
      assert a + b == a;
    } else {
      assert (a + b)[..|a + b| - 1] == a + b[..|b| - 1];
      assert (a + b)[|a + b| - 1] == b[|b| - 1];
      ControllerCallsAppend(a, b[..|b| - 1]);
    }
  }

  /** Controllers run bottom-up: a node's controllers are invoked after
      those of all its descendants, in post-order. */
  lemma {:induction false} ControllersRunPostOrder(t: Tree, animatable: ClassId -> bool)
    ensures ControllerCalls(UpdateTrace(t, animatable)) == PostOrder(t)
    decreases t
  {
    var first: seq<Visit> := if animatable(t.node.classId) then [NextFrame(t.node)] else [];
    var mid := UpdateTraceAll(t.kids, animatable);
    var last := [InvokeControllers(t.node), InvokeListeners(t.node)];
    assert UpdateTrace(t, animatable) == (first + mid) + last;
    ControllerCallsAppend(first + mid, last);
    ControllerCallsAppend(first, mid);
    ControllersRunPostOrderAll(t.kids, animatable);
    NodeVisitCalls(t.node, animatable(t.node.classId));
    assert ControllerCalls(UpdateTrace(t, animatable)) == ControllerCalls(first) + ControllerCalls(mid) + ControllerCalls(last);
  }

  /** Of a node's own visits, only InvokeControllers calls controllers. */
  lemma NodeVisitCalls(n: Node, animated: bool)
    ensures ControllerCalls(if animated then [NextFrame(n)] else []) == []
    ensures ControllerCalls([InvokeControllers(n), InvokeListeners(n)]) == [n]
  {
    var last := [InvokeControllers(n), InvokeListeners(n)];
    assert last[..1] == [InvokeControllers(n)];
    assert [InvokeControllers(n)][..0] == [];
    if animated {
      assert [NextFrame(n)][..0] == [];
    }
  }

  lemma {:induction false} ControllersRunPostOrderAll(ts: seq<Tree>, animatable: ClassId -> bool)
    ensures ControllerCalls(UpdateTraceAll(ts, animatable)) == PostOrderAll(ts)
    decreases ts
  {
    if ts != [] {
      ControllerCallsAppend(UpdateTraceAll(ts[..|ts| - 1], animatable), UpdateTrace(ts[|ts| - 1], animatable));
      ControllersRunPostOrderAll(ts[..|ts| - 1], animatable);
      ControllersRunPostOrder(ts[|ts| - 1], animatable);
    }
  }

  /** Each node of a snapshot whose nodes are distinct has its controllers
      invoked exactly once per update. */
  lemma ControllersRunOncePerNode(t: Tree, animatable: ClassId -> bool, n: Node)
    requires NoDup(PreOrder(t)) && n in PreOrder(t)
    ensures multiset(ControllerCalls(UpdateTrace(t, animatable)))[n] == 1
  {
    ControllersRunPostOrder(t, animatable);
    PostOrderPermutesPreOrder(t);
    NoDupCountsOne(PreOrder(t), n);
  }

  lemma NoDupCountsOne<T>(s: seq<T>, n: T)
    requires NoDup(s) && n in s
    ensures multiset(s)[n] == 1
  {
    var i :| 0 <= i < |s| && s[i] == n;
    var a, b := s[..i], s[i + 1..];
    assert s == a + [n] + b;
    assert n !in a by {
      forall j | 0 <= j < |a|
        ensures a[j] != n
      {
        assert a[j] == s[j];
      }
    }
    assert n !in b by {
      forall j | 0 <= j < |b|
        ensures b[j] != n
      {
        assert b[j] == s[i + 1 + j];
      }
    }
    assert multiset(a)[n] == 0 && multiset(b)[n] == 0;
    assert multiset(s) == multiset(a) + multiset([n]) + multiset(b);
  }

  // ---------------------------------------------------------------------
  // BaseGame
  // ---------------------------------------------------------------------

  /** The one scale factor the game ever uses (`scale` has no setter). */
  const SCALE: int := 1

  class BaseGame {
    /** The codes of the keys now held down. */
    var keyCodes: set<int>
    /** The mouse position on the canvas; None when it is outside. */
    var currentMouseLocation: Option<IntPoint>
    /** The InputEvent modifier bits of the mouse buttons now held down. */
    var currentMouseButton: Mask
    var width: int
    var height: int
    var lastFrameObjCount: int
    /** The calls into nodes made by updates so far. */
    var trace: seq<Visit>

    constructor()
      ensures keyCodes == {} && currentMouseLocation == None && currentMouseButton == NOBUTTON
      ensures width == 320 && height == 240 && lastFrameObjCount == 0 && trace == []
    {
      keyCodes, currentMouseLocation, currentMouseButton := {}, None, NOBUTTON;
      width, height, lastFrameObjCount, trace := 320, 240, 0, [];
    }

    // --- CanvasKeyAdapter ---

    method KeyPressed(code: int)
      modifies this`keyCodes
      ensures keyCodes == old(keyCodes) + {code}
    {
      keyCodes := keyCodes + {code};
    }

    method KeyReleased(code: int)
      modifies this`keyCodes
      ensures keyCodes == old(keyCodes) - {code}
    {
      keyCodes := keyCodes - {code};
    }

    // --- CanvasMouseAdapter ---

    /** mouseDragged, mouseEntered and mouseMoved all record the point. */
    method MouseMoved(p: IntPoint)
      modifies this`currentMouseLocation
      ensures currentMouseLocation == Some(p)
    {
      currentMouseLocation := Some(p);
    }

    /** mouseExited: the mouse is off screen and no button counts as held. */
    method MouseExited()
      modifies this`currentMouseLocation, this`currentMouseButton
      ensures currentMouseLocation == None && currentMouseButton == NOBUTTON
    {
      currentMouseLocation := None;
      currentMouseButton := NOBUTTON;
    }

    /** mousePressed: record the point and add the event's modifier bits. */
    method MousePressed(p: IntPoint, modifiers: Mask)
      modifies this`currentMouseLocation, this`currentMouseButton
      ensures currentMouseLocation == Some(p)
      ensures currentMouseButton == old(currentMouseButton) | modifiers
    {
      currentMouseLocation := Some(p);
      currentMouseButton := currentMouseButton | modifiers;
    }

    /** mouseReleased: clear the event's modifier bits; the point is kept. */
    method MouseReleased(modifiers: Mask)
      modifies this`currentMouseButton
      ensures currentMouseButton == old(currentMouseButton) & !modifiers
    {
      currentMouseButton := currentMouseButton & !modifiers;
    }

    // --- updateComponent / updateGame ---

    /** updateComponent over a snapshot: count every node and make the calls
        of UpdateTrace. */
    method UpdateComponent(t: Tree, animatable: ClassId -> bool)
      modifies this`lastFrameObjCount, this`trace
      ensures lastFrameObjCount == old(lastFrameObjCount) + |PreOrder(t)|
      ensures trace == old(trace) + UpdateTrace(t, animatable)
      decreases t
    {
      lastFrameObjCount := lastFrameObjCount + 1;
      ghost var head: seq<Visit> := if animatable(t.node.classId) then [NextFrame(t.node)] else [];
      if animatable(t.node.classId) {
        trace := trace + [NextFrame(t.node)];
      }
      ghost var before := trace;
      ghost var count := lastFrameObjCount;
      for i := 0 to |t.kids|
        invariant trace == before + UpdateTraceAll(t.kids[..i], animatable)
        invariant lastFrameObjCount == count + |PreOrderAll(t.kids[..i])|
      {
        KidsStep(t.kids, i, animatable);
        UpdateComponent(t.kids[i], animatable);
        AppendAssoc(before, UpdateTraceAll(t.kids[..i], animatable), UpdateTrace(t.kids[i], animatable));
      }
      assert t.kids[..|t.kids|] == t.kids;
      trace := trace + [InvokeControllers(t.node)];
      trace := trace + [InvokeListeners(t.node)];
      TraceShape(old(trace), head, UpdateTraceAll(t.kids, animatable), InvokeControllers(t.node), InvokeListeners(t.node));
    }

    /** updateGame: reset the count and update the current view. Without a
        current view name the map lookup throws NullPointerException; with a
        name no longer mapped, updateComponent(null) counts one object and
        then throws NullPointerException invoking its controllers. */
    method UpdateGame(root: RootContainer.GRootContainer, view: Tree, animatable: ClassId -> bool)
      returns (r: Outcome)
      requires var cv := root.GetCurrentView(); cv.Ok? && cv.value.Some? ==> view.node == cv.value.value
      requires IsSnapshot(view)
      modifies this`lastFrameObjCount, this`trace
      ensures var cv := root.GetCurrentView();
              && (cv.Err? ==> r == Threw(NullPointer) && lastFrameObjCount == 0 && trace == old(trace))
              && (cv.Ok? && cv.value.None? ==> r == Threw(NullPointer) && lastFrameObjCount == 1 && trace == old(trace))
              && (cv.Ok? && cv.value.Some? ==>
                    r == Done && lastFrameObjCount == |PreOrder(view)|
                    && trace == old(trace) + UpdateTrace(view, animatable))
    {
      lastFrameObjCount := 0;
      var cv := root.GetCurrentView();
      if cv.Err? {
        return Threw(NullPointer);
      }
      if cv.value.None? {
        lastFrameObjCount := lastFrameObjCount + 1;
        return Threw(NullPointer);
      }
      UpdateComponent(view, animatable);
      r := Done;
    }

    // --- createContext ---

    /** createContext(object): the mouse points (None off screen; no
        relative point for a null object), each divided by the scale, the
        keys held, the button mask, the game bounds, and the class queries
        over the root container's views. `ancestors` is the object's parent
        chain, ending at a node without a parent; `hits` is
        preciseHitTest(object). `views` are snapshots of the root container's
        views, one per name in `order`, the map's iteration order. */
    method CreateContext(obj: Node?, ghost ancestors: seq<Node>, root: RootContainer.GRootContainer,
                         ghost order: seq<string>, views: seq<Tree>,
                         isA: (ClassId, ClassId) -> bool, hits: Node -> bool)
      returns (ctx: Context)
      requires obj != null ==> ParentChain(obj, ancestors)
      requires NoDup(order) && (forall k :: k in order <==> k in root.views) && |views| == |order|
      requires forall i :: 0 <= i < |views| ==>
                 && order[i] in root.views && views[i].node == root.views[order[i]]
                 && IsSnapshot(views[i])
      ensures ctx.IsMouseInScreen() <==> currentMouseLocation.Some?
      ensures currentMouseLocation.None? ==> ctx.mouseAbsolute.None? && ctx.mouseRelative.None?
      ensures currentMouseLocation.Some? ==> ctx.mouseAbsolute == Some(Scaled(currentMouseLocation.value))
      ensures ctx.mouseRelative.Some? <==> currentMouseLocation.Some? && obj != null
      ensures ctx.mouseRelative.Some? ==>
                ctx.mouseRelative.value == Scaled(Relative(currentMouseLocation.value, Corners(ancestors)))
      ensures ctx.keyCodesPressed == keyCodes && ctx.mouseButtonMask == currentMouseButton
      ensures ctx.gameBounds == Rect(0.0, 0.0, width as real, height as real)
      ensures forall c :: ctx.hitTestClass(c) == Filter(InstancesOfClass(views, isA, c), hits)
      ensures forall c, k :: k in root.views && isA(root.views[k].classId, c) && hits(root.views[k]) ==>
                root.views[k] in ctx.hitTestClass(c)
    {
      var mouseAbsolute: Option<IntPoint> := None;
      var mouseRelative: Option<IntPoint> := None;
      if currentMouseLocation.Some? {
        mouseAbsolute := currentMouseLocation;
        if obj != null {
          var rel := RelativeMouse(currentMouseLocation.value, obj, ancestors);
          mouseRelative := Some(rel);
        }
      }
      if mouseAbsolute.Some? {
        mouseAbsolute := Some(Scaled(mouseAbsolute.value));
      }
      if mouseRelative.Some? {
        mouseRelative := Some(Scaled(mouseRelative.value));
      }
      ctx := Context(keyCodes, mouseAbsolute, mouseRelative, currentMouseButton,
                     Rect(0.0, 0.0, width as real, height as real),
                     c => Filter(InstancesOfClass(views, isA, c), hits));
      forall c, k | k in root.views && isA(root.views[k].classId, c) && hits(root.views[k])
        ensures root.views[k] in ctx.hitTestClass(c)
      {
        assert k in order;
        var i :| 0 <= i < |order| && order[i] == k;
        ViewListed(views, isA, c, hits, i);
      }
    }
  }

  /** Both coordinates divided by the scale (Java int division). */
  function Scaled(p: IntPoint): (q: IntPoint)
    ensures q == p
  {
    IntPoint(JavaDiv(p.x, SCALE), JavaDiv(p.y, SCALE))
  }

  // ---------------------------------------------------------------------
  // Relative mouse point
  // ---------------------------------------------------------------------

  /** The relative-mouse loop of createContext: walk up from the object's
      parent, taking off the top-left corner of every ancestor that has a
      parent itself. */
  method RelativeMouse(p: IntPoint, obj: Node, ghost ancestors: seq<Node>) returns (rel: IntPoint)
    requires ParentChain(obj, ancestors)
    ensures rel == Relative(p, Corners(ancestors))
  {
    rel := p;
    var parent := obj.parent;
    ghost var i := 0;
    while parent != null
      invariant 0 <= i <= |ancestors|
      invariant i < |ancestors| ==> parent == ancestors[i]
      invariant i == |ancestors| ==> parent == null
      invariant rel == Relative(p, Corners(ancestors[..i]))
      decreases |ancestors| - i
    {
      RelativeStep(p, ancestors, i);
      ghost var before := rel;
      if parent.parent != null {
        var c := Corner(parent);
        rel := IntPoint(Trunc(rel.x as real - c.x), Trunc(rel.y as real - c.y));
      }
      assert rel == Shift(before, parent);
      parent := parent.parent;
      i := i + 1;
    }
    assert ancestors[..i] == ancestors;
  }

  /** `ancestors` is the parent chain of `object`: its parent, that node's
      parent, and so on up to a node without one. */
  ghost predicate ParentChain(obj: Node, ancestors: seq<Node>)
    reads obj, set n | n in ancestors
  {
    && (ancestors == [] <==> obj.parent == null)
    && (ancestors != [] ==> obj.parent == ancestors[0] && ancestors[|ancestors| - 1].parent == null)
    && forall i :: 0 <= i < |ancestors| - 1 ==> ancestors[i].parent == ancestors[i + 1]
  }

  /** The top-left corner (anchor point minus the anchor offset) of every
      ancestor that has a parent itself: the offsets createContext takes
      off the mouse point. */
  function Corners(ancestors: seq<Node>): (cs: seq<Option<Vec>>)
    reads set n | n in ancestors
    ensures |cs| == |ancestors|
  {
    if ancestors == [] then []
    else
      var p := ancestors[|ancestors| - 1];
      Corners(ancestors[..|ancestors| - 1])
      + [if p.parent != null then Some(Corner(p)) else None]
  }

  /** A node's top-left corner: its anchor point less the anchor weights'
      share of its size. */
  function Corner(a: Node): Vec
    reads a
  {
    Vec(a.x - a.width * a.anchorWeightX, a.y - a.height * a.anchorWeightY)
  }

  /** The point with one ancestor's corner taken off, if it has a parent. */
  function Shift(q: IntPoint, a: Node): IntPoint
    reads a
  {
    if a.parent != null
    then IntPoint(Trunc(q.x as real - Corner(a).x), Trunc(q.y as real - Corner(a).y))
    else q
  }

  /** One more ancestor takes off its corner, if it has a parent. */
  lemma RelativeStep(p: IntPoint, ancestors: seq<Node>, i: nat)
    requires i < |ancestors|
    ensures Relative(p, Corners(ancestors[..i + 1])) == Shift(Relative(p, Corners(ancestors[..i])), ancestors[i])
  {
    assert ancestors[..i + 1][..i] == ancestors[..i];
    var cs := Corners(ancestors[..i + 1]);
    assert cs[..i] == Corners(ancestors[..i]);
  }

  /** The point with each corner taken off in turn, each difference
      narrowed back to int (toward zero) as Java's `-=` on an int field
      does. */
  function Relative(p: IntPoint, corners: seq<Option<Vec>>): IntPoint
  {
    if corners == [] then p
    else
      var q := Relative(p, corners[..|corners| - 1]);
      match corners[|corners| - 1]
      case None => q
      case Some(c) => IntPoint(Trunc(q.x as real - c.x), Trunc(q.y as real - c.y))
  }

  /** The corners' total offset. */
  function TotalOffset(corners: seq<Option<Vec>>): Vec
  {
    if corners == [] then Vec(0.0, 0.0)
    else
      var s := TotalOffset(corners[..|corners| - 1]);
      match corners[|corners| - 1]
      case None => s
      case Some(c) => Vec(s.x + c.x, s.y + c.y)
  }

  predicate Integral(r: real) { r == r.Floor as real }

  /** When every corner lies on whole pixels no truncation happens, and the
      relative point is the absolute one minus the sum of the corners. */
  lemma {:induction false} RelativeSubtractsCorners(p: IntPoint, corners: seq<Option<Vec>>)
    requires forall i :: 0 <= i < |corners| && corners[i].Some? ==>
               Integral(corners[i].value.x) && Integral(corners[i].value.y)
    ensures Relative(p, corners) == IntPoint(p.x - TotalOffset(corners).x.Floor, p.y - TotalOffset(corners).y.Floor)
    ensures Integral(TotalOffset(corners).x) && Integral(TotalOffset(corners).y)
  {
    if corners != [] {
      var init := corners[..|corners| - 1];
      RelativeSubtractsCorners(p, init);
      var s := TotalOffset(init);
      match corners[|corners| - 1]
      case None =>
      case Some(c) =>
        assert Integral(c.x) && Integral(c.y);
        var q := Relative(p, init);
        assert q.x as real - c.x == (q.x - c.x.Floor) as real;
        assert q.y as real - c.y == (q.y - c.y.Floor) as real;
        assert (s.x + c.x).Floor == s.x.Floor + c.x.Floor;
        assert (s.y + c.y).Floor == s.y.Floor + c.y.Floor;
    }
  }

  // ---------------------------------------------------------------------
  // getInstancesOfClass / hitTestClass
  // ---------------------------------------------------------------------

  function Filter(s: seq<Node>, p: Node -> bool): (r: seq<Node>)
    ensures |r| <= |s|
    ensures forall i :: 0 <= i < |r| ==> r[i] in s && p(r[i])
    ensures forall i :: 0 <= i < |s| && p(s[i]) ==> s[i] in r
  {
    if s == [] then [] else Filter(s[..|s| - 1], p) + (if p(s[|s| - 1]) then [s[|s| - 1]] else [])
  }

  lemma {:induction false} FilterAppend(a: seq<Node>, b: seq<Node>, p: Node -> bool)
    ensures Filter(a + b, p) == Filter(a, p) + Filter(b, p)
    decreases |b|
  {
    if b == [] {
      assert a + b == a;
    } else {
      assert (a + b)[..|a + b| - 1] == a + b[..|b| - 1];
      assert (a + b)[|a + b| - 1] == b[|b| - 1];
      FilterAppend(a, b[..|b| - 1], p);
    }
  }

  /** addToList from the root: for each view (the root container's
      objects, in the map's order), and recursively for each child, the
      node itself if it is an instance, then its descendants. The root
      container itself is never listed. */
  function InstancesOfClass(views: seq<Tree>, isA: (ClassId, ClassId) -> bool, clazz: ClassId): seq<Node>
    decreases views
  {
    if views == [] then []
    else
      var t := views[|views| - 1];
      InstancesOfClass(views[..|views| - 1], isA, clazz)
      + (if isA(t.node.classId, clazz) then [t.node] else [])
      + InstancesOfClass(t.kids, isA, clazz)
  }

  /** getInstancesOfClass lists exactly the instances among the views'
      nodes, in depth-first pre-order. */
  lemma {:induction false} InstancesArePreOrderFiltered(views: seq<Tree>, isA: (ClassId, ClassId) -> bool, clazz: ClassId)
    ensures InstancesOfClass(views, isA, clazz) == Filter(PreOrderAll(views), (n: Node) => isA(n.classId, clazz))
    decreases views
  {
    if views != [] {
      var p := (n: Node) => isA(n.classId, clazz);
      var init, t := views[..|views| - 1], views[|views| - 1];
      InstancesArePreOrderFiltered(init, isA, clazz);
      InstancesArePreOrderFiltered(t.kids, isA, clazz);
      assert PreOrderAll(views) == PreOrderAll(init) + ([t.node] + PreOrderAll(t.kids));
      FilterAppend(PreOrderAll(init), [t.node] + PreOrderAll(t.kids), p);
      FilterAppend([t.node], PreOrderAll(t.kids), p);
      assert Filter([t.node], p) == if p(t.node) then [t.node] else [] by {
        assert [t.node][..0] == [];
      }
      AppendAssoc(Filter(PreOrderAll(init), p), Filter([t.node], p), Filter(PreOrderAll(t.kids), p));
    }
  }

  /** Every view that is an instance of the class and hits is listed. */
  lemma ViewListed(views: seq<Tree>, isA: (ClassId, ClassId) -> bool, clazz: ClassId, hits: Node -> bool, i: nat)
    requires i < |views| && isA(views[i].node.classId, clazz) && hits(views[i].node)
    ensures views[i].node in Filter(InstancesOfClass(views, isA, clazz), hits)
  {
    var p := (n: Node) => isA(n.classId, clazz);
    InstancesArePreOrderFiltered(views, isA, clazz);
    PreOrderAllContains(views, i);
    var all := PreOrderAll(views);
    assert views[i].node in PreOrder(views[i]);
    var j :| 0 <= j < |all| && all[j] == views[i].node;
    assert p(all[j]);
    var inst := Filter(all, p);
    var m :| 0 <= m < |inst| && inst[m] == views[i].node;
    assert hits(inst[m]);
  }

  lemma InstancesStep(views: seq<Tree>, i: nat, isA: (ClassId, ClassId) -> bool, clazz: ClassId)
    requires i < |views|
    ensures var t := views[i];
            InstancesOfClass(views[..i + 1], isA, clazz)
            == InstancesOfClass(views[..i], isA, clazz)
               + (if isA(t.node.classId, clazz) then [t.node] else [])
               + InstancesOfClass(t.kids, isA, clazz)
  {
    assert views[..i + 1][..i] == views[..i];
  }

  lemma AppendAssoc3<T>(a: seq<T>, b: seq<T>, c: seq<T>, d: seq<T>)
    ensures a + b + c + d == a + (b + c + d)
  {
  }

  /** The addToList recursion, appending to `list`. */
  method AddToList(list: seq<Node>, views: seq<Tree>, isA: (ClassId, ClassId) -> bool, clazz: ClassId)
    returns (out: seq<Node>)
    ensures out == list + InstancesOfClass(views, isA, clazz)
    decreases views
  {
    out := list;
    for i := 0 to |views|
      invariant out == list + InstancesOfClass(views[..i], isA, clazz)
    {
      var t := views[i];
      ghost var own: seq<Node> := if isA(t.node.classId, clazz) then [t.node] else [];
      InstancesStep(views, i, isA, clazz);
      ghost var before := out;
      if isA(t.node.classId, clazz) {
        out := out + [t.node];
      }
      out := AddToList(out, t.kids, isA, clazz);
      AppendAssoc3(list, InstancesOfClass(views[..i], isA, clazz), own, InstancesOfClass(t.kids, isA, clazz));
    }
    assert views[..|views|] == views;
  }

  /** hitTestClass: a copy of the instances, with every one that does not
      hit the object removed through the iterator. */
  method HitTestClass(instances: seq<Node>, hits: Node -> bool) returns (list: seq<Node>)
    ensures list == Filter(instances, hits)
  {
    list := [];
    for i := 0 to |instances|
      invariant list == Filter(instances[..i], hits)
    {
      assert instances[..i + 1][..i] == instances[..i];
      if hits(instances[i]) {
        list := list + [instances[i]];
      }
    }
    assert instances[..|instances|] == instances;
  }

  /** A press and a release with the same modifiers: the pressed buttons
      end up released whatever their state before, every other button keeps
      its state, and the mouse stays at the press point. */
  method PressThenRelease(g: BaseGame, p: IntPoint, buttons: Mask)
    modifies g`currentMouseLocation, g`currentMouseButton
    ensures g.currentMouseLocation == Some(p)
    ensures g.currentMouseButton & buttons == 0
    ensures g.currentMouseButton & !buttons == old(g.currentMouseButton) & !buttons
  {
    g.MousePressed(p, buttons);
    g.MouseReleased(buttons);
  }
}
