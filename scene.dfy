/** The scene-graph node every controller, listener and container works on,
    reduced to the fields they read and write, and the per-frame context the
    game hands to controllers and listeners. */
module Scene {
  import opened Common

  /** A mouse-button or modifier mask (java.awt.event.InputEvent masks). */
  type Mask = bv32

  const BUTTON1_MASK: Mask := 16
  const NOBUTTON: Mask := 0

  /** Identifies a Java class for the class-wide queries. */
  type ClassId = nat

  /** The geometric state of a node, as a value. */
  datatype Pose = Pose(x: real, y: real, width: real, height: real,
                       anchorWeightX: real, anchorWeightY: real)

  /** The affine geometry of java.awt that the model does not compute: the
      anchor point of a node with a given pose. */
  datatype Geometry = Geometry(anchor: Pose -> Vec)

  class Node {
    var x: real
    var y: real
    var width: real
    var height: real
    var rotation: real
    var scale: real
    var alpha: real
    var anchorWeightX: real
    var anchorWeightY: real
    /** The class of the node, for class-wide instance queries. */
    const classId: ClassId
    var parent: Node?
    var children: seq<Node>
    var controllers: seq<object>
    var listeners: seq<object>

    constructor(classId: ClassId)
      ensures this.classId == classId
      ensures x == 0.0 && y == 0.0 && width == 0.0 && height == 0.0
      ensures rotation == 0.0 && scale == 1.0 && alpha == 1.0
      ensures anchorWeightX == 0.0 && anchorWeightY == 0.0
      ensures parent == null && children == [] && controllers == [] && listeners == []
    {
      this.classId := classId;
      x, y, width, height := 0.0, 0.0, 0.0, 0.0;
      rotation, scale, alpha := 0.0, 1.0, 1.0;
      anchorWeightX, anchorWeightY := 0.0, 0.0;
      parent, children, controllers, listeners := null, [], [], [];
    }

    function GetPose(): Pose
      reads this
    {
      Pose.Pose(x, y, width, height, anchorWeightX, anchorWeightY)
    }

    function AnchorPoint(geo: Geometry): Vec
      reads this
    {
      geo.anchor(GetPose())
    }

    method SetX(v: real)
      modifies this`x
      ensures x == v
    {
      x := v;
    }

    method SetY(v: real)
      modifies this`y
      ensures y == v
    {
      y := v;
    }

    method SetLocation(p: Vec)
      modifies this`x, this`y
      ensures x == p.x && y == p.y
    {
      x, y := p.x, p.y;
    }

    method SetWidth(v: real)
      modifies this`width
      ensures width == v
    {
      width := v;
    }

    method SetHeight(v: real)
      modifies this`height
      ensures height == v
    {
      height := v;
    }

    method SetSize(w: real, h: real)
      modifies this`width, this`height
      ensures width == w && height == h
    {
      width, height := w, h;
    }

    method SetRotation(v: real)
      modifies this`rotation
      ensures rotation == v
    {
      rotation := v;
    }

    method SetScale(v: real)
      modifies this`scale
      ensures scale == v
    {
      scale := v;
    }

    method SetAlpha(v: real)
      modifies this`alpha
      ensures alpha == v
    {
      alpha := v;
    }

    method SetAnchorTopLeft()
      modifies this`anchorWeightX, this`anchorWeightY
      ensures anchorWeightX == 0.0 && anchorWeightY == 0.0
    {
      anchorWeightX, anchorWeightY := 0.0, 0.0;
    }

    method AddController(c: object)
      modifies this`controllers
      ensures controllers == old(controllers) + [c]
    {
      controllers := controllers + [c];
    }

    method RemoveController(c: object)
      modifies this`controllers
      ensures controllers == RemoveFirst(old(controllers), c)
    {
      controllers := RemoveFirst(controllers, c);
    }

    method AddChild(child: Node)
      requires child != this
      modifies this`children, child`parent
      ensures children == old(children) + [child] && child.parent == this
    {
      children := children + [child];
      child.parent := this;
    }

    method RemoveAllChildren()
      modifies this`children
      ensures children == []
    {
      children := [];
    }
  }

  /** List.remove(Object): drops the first occurrence of c, if any. */
  function RemoveFirst<T(==)>(s: seq<T>, c: T): (r: seq<T>)
    ensures c !in s ==> r == s
    ensures c in s ==> |r| == |s| - 1 && multiset(r) == multiset(s) - multiset{c}
  {
    if s == [] then []
    else
      assert s == [s[0]] + s[1..];
      if s[0] == c then s[1..]
      else [s[0]] + RemoveFirst(s[1..], c)
  }

  /** The Context a controller or listener is invoked with. */
  datatype Context = Context(
    keyCodesPressed: set<int>,
    mouseAbsolute: Option<IntPoint>,
    mouseRelative: Option<IntPoint>,
    mouseButtonMask: Mask,
    gameBounds: Rect,
    hitTestClass: ClassId -> seq<Node>)
  {
    predicate IsMouseInScreen() { mouseAbsolute.Some? }
  }
}
