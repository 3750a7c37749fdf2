/** The per-frame controllers that move and turn a node: the moving-average
    base jgame.controller.AbstractLocRotController with its keyboard, mouse and
    polygon subclasses, the mouse rotation controller, and the constant
    movement and rotation controllers. */
module Controllers {
  import opened Common
  import opened Scene

  // ---------------------------------------------------------------- windows

  function Plus(a: Vec, b: Vec): Vec
  {
    Vec(a.x + b.x, a.y + b.y)
  }

  /** The componentwise total of a window of transforms. */
  function Sum(h: seq<Vec>): Vec
  {
    if h == [] then Vec(0.0, 0.0) else Plus(Sum(h[..|h| - 1]), h[|h| - 1])
  }

  /** Summing is additive over concatenation, so dropping the oldest entry
      of a window takes exactly that entry off the total. */
  lemma {:induction false} SumAppend(a: seq<Vec>, b: seq<Vec>)
    ensures Sum(a + b) == Plus(Sum(a), Sum(b))
    decreases |b|
  {
    if b == [] {
      assert a + b == a;
    } else {
      var c := b[..|b| - 1];
      assert (a + b)[..|a + b| - 1] == a + c;
      SumAppend(a, c);
    }
  }

  lemma SumDropOldest(h: seq<Vec>)
    requires h != []
    ensures Sum(h) == Plus(h[0], Sum(h[1..]))
  {
    assert h == [h[0]] + h[1..];
    SumAppend([h[0]], h[1..]);
    assert [h[0]][..0] == [];
  }

  /** The loop of controlObject that totals the window. */
  method SumWindow(h: seq<Vec>) returns (s: Vec)
    ensures s == Sum(h)
  {
    s := Vec(0.0, 0.0);
    for i := 0 to |h|
      invariant s == Sum(h[..i])
    {
      assert h[..i + 1][..i] == h[..i];
      s := Vec(s.x + h[i].x, s.y + h[i].y);
    }
    assert h[..|h|] == h;
  }

  /** The window after one more transform: it is appended, and the oldest
      entry is dropped once if the window is then longer than count. */
  function Slide(h: seq<Vec>, v: Vec, count: int): seq<Vec>
  {
    var w := h + [v];
    if |w| > count then w[1..] else w
  }

  /** The slid window ends with the new transform and is a suffix of the old
      window extended by it; it grows by one while shorter than count and
      keeps its length otherwise, so a window within count stays within it. */
  lemma SlideWindow(h: seq<Vec>, v: Vec, count: int)
    requires count >= 1
    ensures var r := Slide(h, v, count);
      && |r| >= 1 && r[|r| - 1] == v
      && r == (h + [v])[|h| + 1 - |r|..]
      && (|h| < count ==> |r| == |h| + 1)
      && (|h| >= count ==> |r| == |h| && r == h[1..] + [v])
      && (|h| <= count ==> |r| <= count)
  {
    var w := h + [v];
    if |w| > count {
      assert w[1..] == h[1..] + [v];
    }
  }

  /** A window already longer than count (count lowered in between) never
      shrinks back: each slide adds one entry and drops one. */
  lemma {:induction false} WindowStaysLong(h: seq<Vec>, vs: seq<Vec>, count: int)
    requires |h| > count
    ensures |Slides(h, vs, count)| == |h|
    decreases |vs|
  {
    if vs != [] {
      WindowStaysLong(h, vs[..|vs| - 1], count);
      assert |Slides(h, vs[..|vs| - 1], count) + [vs[|vs| - 1]]| > count;
    }
  }

  function Slides(h: seq<Vec>, vs: seq<Vec>, count: int): seq<Vec>
  {
    if vs == [] then h else Slide(Slides(h, vs[..|vs| - 1], count), vs[|vs| - 1], count)
  }

  /** From an empty window, the window is the last min(n, count) transforms. */
  lemma {:induction false} WindowIsLatest(vs: seq<Vec>, count: int)
    requires count >= 1
    ensures var n := if |vs| <= count then |vs| else count;
            Slides([], vs, count) == vs[|vs| - n..]
    decreases |vs|
  {
    if vs != [] {
      var u := vs[..|vs| - 1];
      WindowIsLatest(u, count);
      var n := if |u| <= count then |u| else count;
      var w := u[|u| - n..];
      assert Slides([], vs, count) == Slide(w, vs[|vs| - 1], count);
      SlideLatest(vs, n, count);
    }
  }

  /** One slide of the last n entries of vs's prefix gives the last
      min(n + 1, count) entries of vs. */
  lemma SlideLatest(vs: seq<Vec>, n: nat, count: int)
    requires vs != [] && 1 <= count && n <= count && n <= |vs| - 1
    requires n < count ==> n == |vs| - 1
    ensures var u := vs[..|vs| - 1];
            var m := if |vs| <= count then |vs| else count;
            Slide(u[|u| - n..], vs[|vs| - 1], count) == vs[|vs| - m..]
  {
    var u := vs[..|vs| - 1];
    var v := vs[|vs| - 1];
    var w := u[|u| - n..];
    assert w + [v] == vs[|vs| - (n + 1)..];
    if n == count {
      assert (w + [v])[1..] == vs[|vs| - n..];
    }
  }

  /** The rotation written: the heading of the summed window in degrees, plus
      an offset. */
  function Heading(m: MathLib, h: seq<Vec>, offset: real): real
  {
    var s := Sum(h);
    m.toDegrees(m.atan2(s.y, s.x)) + offset
  }

  // ---------------------------------------------------------------- base class

  /** The state of AbstractLocRotController. A subclass holds one and supplies
      canControl and calculateControl. */
  class LocRotController {
    /** -1 stands for an unbounded speed. */
    var maxSpeed: real
    var rotateToFollow: bool
    var rotationOffset: real
    var history: seq<Vec>
    var movingAverageCount: int

    constructor()
      ensures maxSpeed == -1.0 && !rotateToFollow && rotationOffset == 0.0
      ensures history == [] && movingAverageCount == 15
    {
      maxSpeed, rotateToFollow, rotationOffset := -1.0, false, 0.0;
      history, movingAverageCount := [], 15;
    }

    /** The flag argument is ignored: rotate-to-follow is always switched on. */
    constructor WithRotation(rotateToFollow: bool, rotationOffset: int)
      ensures this.rotateToFollow && this.rotationOffset == rotationOffset as real
      ensures maxSpeed == -1.0 && history == [] && movingAverageCount == 15
    {
      maxSpeed, this.rotateToFollow, this.rotationOffset := -1.0, true, rotationOffset as real;
      history, movingAverageCount := [], 15;
    }

    /** controlObject when canControl is false: forget the window. */
    method Release()
      modifies this`history
      ensures history == []
    {
      history := [];
    }

    /** The target moved by d, and the window and rotation were updated the
        way controlObject does it. */
    twostate predicate Followed(target: Node, d: Vec, m: MathLib)
      reads this, target
    {
      && target.x == old(target.x) + d.x
      && target.y == old(target.y) + d.y
      && (if rotateToFollow && d != Vec(0.0, 0.0) then
            history == Slide(old(history), d, movingAverageCount)
            && target.rotation == Heading(m, history, rotationOffset)
          else
            history == old(history) && target.rotation == old(target.rotation))
    }

    /** controlObject after calculateControl returned d: move by d; if
        rotating and d is not zero, slide the window and turn the target to
        the window's heading. */
    method Follow(target: Node, d: Vec, m: MathLib)
      modifies target`x, target`y, target`rotation, this`history
      ensures Followed(target, d, m)
      ensures 1 <= movingAverageCount && |old(history)| <= movingAverageCount ==>
                |history| <= movingAverageCount
    {
      target.SetX(target.x + d.x);
      target.SetY(target.y + d.y);
      if rotateToFollow && (d.x != 0.0 || d.y != 0.0) {
        history := history + [d];
        if |history| > movingAverageCount {
          history := history[1..];
        }
        var s := SumWindow(history);
        target.SetRotation(m.toDegrees(m.atan2(s.y, s.x)) + rotationOffset);
      }
    }

    method SetMaxSpeed(s: real)
      modifies this`maxSpeed
      ensures maxSpeed == s
    {
      maxSpeed := s;
    }

    /** A non-positive count is rejected and changes nothing. */
    method SetMovingAverageCount(k: int) returns (r: Outcome)
      modifies this`movingAverageCount
      ensures k <= 0 ==> r == Threw(IllegalArgument) && movingAverageCount == old(movingAverageCount)
      ensures k > 0 ==> r == Done && movingAverageCount == k
    {
      if k <= 0 {
        return Threw(IllegalArgument);
      }
      movingAverageCount := k;
      r := Done;
    }

    method SetRotateToFollow(b: bool)
      modifies this`rotateToFollow
      ensures rotateToFollow == b
    {
      rotateToFollow := b;
    }

    method SetRotationOffset(o: real)
      modifies this`rotationOffset
      ensures rotationOffset == o
    {
      rotationOffset := o;
    }
  }

  // ---------------------------------------------------------------- keyboard

  /** The four key codes of a jgame.controller.ControlScheme. */
  datatype ControlScheme = ControlScheme(up: int, lt: int, dn: int, rt: int)

  function Indicator(b: bool): int
  {
    if b then 1 else 0
  }

  /** The (horizontal, vertical) counts calculateControl accumulates over the
      pressed keys: right and down count +1, left and up count -1. */
  function Direction(scheme: ControlScheme, pressed: set<int>): (d: (int, int))
    ensures -1 <= d.0 <= 1 && -1 <= d.1 <= 1
    ensures d.0 == 1 <==> scheme.rt in pressed && scheme.lt !in pressed
    ensures d.0 == -1 <==> scheme.lt in pressed && scheme.rt !in pressed
    ensures d.1 == 1 <==> scheme.dn in pressed && scheme.up !in pressed
    ensures d.1 == -1 <==> scheme.up in pressed && scheme.dn !in pressed
  {
    (Indicator(scheme.rt in pressed) - Indicator(scheme.lt in pressed),
     Indicator(scheme.dn in pressed) - Indicator(scheme.up in pressed))
  }

  /** The displacement for direction counts d: a disallowed axis counts 0,
      and the speed is divided by root2 only when moving down and right. */
  function KeyboardDisplacement(speed: real, d: (int, int), vertical: bool, horizontal: bool, root2: real): Vec
    requires root2 != 0.0
  {
    var h := if horizontal then d.0 else 0;
    var v := if vertical then d.1 else 0;
    var s := if h > 0 && v > 0 then speed / root2 else speed;
    Vec(s * h as real, s * v as real)
  }

  /** What each combination of keys does. */
  lemma KeyboardCases(scheme: ControlScheme, pressed: set<int>, speed: real,
                      vertical: bool, horizontal: bool, root2: real)
    requires root2 != 0.0
    ensures var d := KeyboardDisplacement(speed, Direction(scheme, pressed), vertical, horizontal, root2);
      && (!horizontal ==> d.x == 0.0)
      && (!vertical ==> d.y == 0.0)
      && ((scheme.up !in pressed && scheme.lt !in pressed && scheme.dn !in pressed && scheme.rt !in pressed)
            ==> d == Vec(0.0, 0.0))
      && ((horizontal && vertical && scheme.rt in pressed && scheme.lt !in pressed
             && scheme.dn in pressed && scheme.up !in pressed)
            ==> d == Vec(speed / root2, speed / root2))
      && ((horizontal && vertical && scheme.lt in pressed && scheme.rt !in pressed
             && scheme.up in pressed && scheme.dn !in pressed)
            ==> d == Vec(-speed, -speed))
      && ((horizontal && vertical && scheme.rt in pressed && scheme.lt !in pressed
             && scheme.up in pressed && scheme.dn !in pressed)
            ==> d == Vec(speed, -speed))
      && (horizontal && scheme.rt in pressed && scheme.lt in pressed ==> d.x == 0.0)
  {
  }

  class KeyboardLocationController {
    const base: LocRotController
    const scheme: ControlScheme
    var verticalAllowed: bool
    var horizontalAllowed: bool

    constructor(scheme: ControlScheme, speed: real)
      ensures this.scheme == scheme && verticalAllowed && horizontalAllowed
      ensures fresh(base) && base.maxSpeed == speed && !base.rotateToFollow
      ensures base.rotationOffset == 0.0 && base.history == [] && base.movingAverageCount == 15
    {
      base := new LocRotController();
      this.scheme := scheme;
      verticalAllowed, horizontalAllowed := true, true;
      new;
      base.SetMaxSpeed(speed);
    }

    constructor WithRotation(scheme: ControlScheme, speed: real, rotateToFollow: bool, rotationOffset: int)
      ensures this.scheme == scheme && verticalAllowed && horizontalAllowed
      ensures fresh(base) && base.maxSpeed == speed && base.rotateToFollow
      ensures base.rotationOffset == rotationOffset as real && base.history == [] && base.movingAverageCount == 15
    {
      base := new LocRotController.WithRotation(rotateToFollow, rotationOffset);
      this.scheme := scheme;
      verticalAllowed, horizontalAllowed := true, true;
      new;
      base.SetMaxSpeed(speed);
    }

    /** The counting loop of calculateControl over the pressed keys, visited
        in `order`: the iteration order of the pressed-key set, each key once. */
    method CountKeys(pressed: set<int>, order: seq<int>) returns (h: int, v: int)
      requires NoDup(order) && forall k :: k in order <==> k in pressed
      ensures (h, v) == Direction(scheme, pressed)
    {
      h, v := 0, 0;
      for i := 0 to |order|
        invariant h == Indicator(scheme.rt in order[..i]) - Indicator(scheme.lt in order[..i])
        invariant v == Indicator(scheme.dn in order[..i]) - Indicator(scheme.up in order[..i])
      {
        var k := order[i];
        assert k !in order[..i];
        assert order[..i + 1] == order[..i] + [k];
        if k == scheme.up {
          v := v - 1;
        }
        if k == scheme.dn {
          v := v + 1;
        }
        if k == scheme.rt {
          h := h + 1;
        }
        if k == scheme.lt {
          h := h - 1;
        }
      }
      assert order[..|order|] == order;
    }

    /** calculateControl. root2 is Math.sqrt(2) as the host computes it. */
    method CalculateControl(pressed: set<int>, order: seq<int>, root2: real) returns (d: Vec)
      requires NoDup(order) && (forall k :: k in order <==> k in pressed) && root2 != 0.0
      ensures d == KeyboardDisplacement(base.maxSpeed, Direction(scheme, pressed),
                                        verticalAllowed, horizontalAllowed, root2)
    {
      var horizontal, vertical := CountKeys(pressed, order);
      if !verticalAllowed {
        vertical := 0;
      }
      if !horizontalAllowed {
        horizontal := 0;
      }
      var speed := base.maxSpeed;
      if horizontal > 0 && vertical > 0 {
        speed := speed / root2;
      }
      d := Vec(speed * horizontal as real, speed * vertical as real);
    }

    /** canControl: always. */
    function CanControl(): (b: bool)
      ensures b
    {
      true
    }

    /** controlObject: canControl always holds, so the target always moves by
        the keyboard displacement. */
    method ControlObject(target: Node, ctx: Context, order: seq<int>, m: MathLib)
      requires NoDup(order) && (forall k :: k in order <==> k in ctx.keyCodesPressed)
      requires m.sqrt(2.0) != 0.0
      modifies target`x, target`y, target`rotation, base`history
      ensures base.Followed(target, KeyboardDisplacement(base.maxSpeed, Direction(scheme, ctx.keyCodesPressed),
                                                         verticalAllowed, horizontalAllowed, m.sqrt(2.0)), m)
    {
      var d := CalculateControl(ctx.keyCodesPressed, order, m.sqrt(2.0));
      base.Follow(target, d, m);
    }

    method SetHorizontalAllowed(b: bool)
      modifies this`horizontalAllowed
      ensures horizontalAllowed == b
    {
      horizontalAllowed := b;
    }

    method SetVerticalAllowed(b: bool)
      modifies this`verticalAllowed
      ensures verticalAllowed == b
    {
      verticalAllowed := b;
    }
  }

  // ---------------------------------------------------------------- mouse location

  /** Where the node's position must go for its anchor to sit on the mouse:
      the mouse minus the anchor's offset from the position. */
  function Goal(mouse: IntPoint, anchor: Vec, pos: Vec): (g: Vec)
    ensures Plus(g, Vec(anchor.x - pos.x, anchor.y - pos.y)) == ToVec(mouse)
  {
    Vec(mouse.x as real - (anchor.x - pos.x), mouse.y as real - (anchor.y - pos.y))
  }

  /** The displacement toward the goal: none when already there; the whole
      way when the speed is unbounded (-1) or the goal is within maxSpeed;
      otherwise maxSpeed along the heading to the goal. */
  function Approach(pos: Vec, goal: Vec, maxSpeed: real, m: MathLib): Vec
  {
    if pos == goal then Vec(0.0, 0.0)
    else if Distance(m, goal, pos) <= maxSpeed || maxSpeed == -1.0 then
      Vec(goal.x - pos.x, goal.y - pos.y)
    else
      var angle := m.atan2(goal.y - pos.y, goal.x - pos.x);
      Vec(maxSpeed * m.cos(angle), maxSpeed * m.sin(angle))
  }

  /** The approach lands on the goal exactly when it snaps, and otherwise
      steps maxSpeed along the heading. */
  lemma ApproachCases(pos: Vec, goal: Vec, maxSpeed: real, m: MathLib)
    ensures pos == goal ==> Approach(pos, goal, maxSpeed, m) == Vec(0.0, 0.0)
    ensures maxSpeed == -1.0 || Distance(m, goal, pos) <= maxSpeed ==>
              Plus(pos, Approach(pos, goal, maxSpeed, m)) == goal
    ensures pos != goal && maxSpeed != -1.0 && Distance(m, goal, pos) > maxSpeed ==>
              var angle := m.atan2(goal.y - pos.y, goal.x - pos.x);
              Approach(pos, goal, maxSpeed, m) == Vec(maxSpeed * m.cos(angle), maxSpeed * m.sin(angle))
  {
  }

  class MouseLocationController {
    const base: LocRotController
    var limitToBounds: bool

    constructor()
      ensures limitToBounds && fresh(base) && base.maxSpeed == -1.0 && !base.rotateToFollow
      ensures base.history == [] && base.movingAverageCount == 15
    {
      base := new LocRotController();
      limitToBounds := true;
    }

    constructor WithRotation(rotateToFollow: bool, rotationOffset: int)
      ensures limitToBounds && fresh(base) && base.maxSpeed == -1.0 && base.rotateToFollow
      ensures base.rotationOffset == rotationOffset as real
      ensures base.history == [] && base.movingAverageCount == 15
    {
      base := new LocRotController.WithRotation(rotateToFollow, rotationOffset);
      limitToBounds := true;
    }

    /** canControl: the mouse is on screen and, when limited to bounds and the
        target has a parent, inside the parent's transformed shape. */
    function CanControl(target: Node, ctx: Context, parentShape: IntPoint -> bool): (b: bool)
      reads this, target
      ensures b ==> ctx.IsMouseInScreen()
      ensures !limitToBounds || target.parent == null ==> b == ctx.IsMouseInScreen()
      ensures b && limitToBounds && target.parent != null ==> parentShape(ctx.mouseAbsolute.value)
    {
      ctx.IsMouseInScreen()
      && (if limitToBounds && target.parent != null then parentShape(ctx.mouseAbsolute.value) else true)
    }

    /** calculateControl: approach the goal for the relative mouse point; a
        missing relative point is the NullPointerException of m.x. */
    function CalculateControl(target: Node, ctx: Context, geo: Geometry, m: MathLib): (r: Result<Vec>)
      reads this, base, target
      ensures r.Err? <==> ctx.mouseRelative.None?
      ensures r.Err? ==> r.error == NullPointer
    {
      match ctx.mouseRelative
      case None => Err(NullPointer)
      case Some(mouse) =>
        var pos := Vec(target.x, target.y);
        Ok(Approach(pos, Goal(mouse, target.AnchorPoint(geo), pos), base.maxSpeed, m))
    }

    /** controlObject of the base class with this class's canControl and
        calculateControl. */
    method ControlObject(target: Node, ctx: Context, geo: Geometry, parentShape: IntPoint -> bool, m: MathLib)
      returns (r: Outcome)
      modifies target`x, target`y, target`rotation, base`history
      ensures !old(CanControl(target, ctx, parentShape)) ==>
                r == Done && base.history == [] && unchanged(target)
      ensures old(CanControl(target, ctx, parentShape)) && ctx.mouseRelative.None? ==>
                r == Threw(NullPointer) && unchanged(target) && unchanged(base)
      ensures old(CanControl(target, ctx, parentShape)) && ctx.mouseRelative.Some? ==>
                r == Done && base.Followed(target, old(CalculateControl(target, ctx, geo, m)).value, m)
    {
      if !CanControl(target, ctx, parentShape) {
        base.Release();
        return Done;
      }
      var d := CalculateControl(target, ctx, geo, m);
      if d.Err? {
        return Threw(d.error);
      }
      base.Follow(target, d.value, m);
      r := Done;
    }

    method SetLimitToBounds(b: bool)
      modifies this`limitToBounds
      ensures limitToBounds == b
    {
      limitToBounds := b;
    }
  }

  /** A snapping step puts the anchor on the mouse: the new position plus the
      anchor's old offset is the mouse point. */
  lemma SnapPutsAnchorOnMouse(mouse: IntPoint, anchor: Vec, pos: Vec, maxSpeed: real, m: MathLib)
    requires maxSpeed == -1.0 || Distance(m, Goal(mouse, anchor, pos), pos) <= maxSpeed
    ensures var p := Plus(pos, Approach(pos, Goal(mouse, anchor, pos), maxSpeed, m));
            Plus(p, Vec(anchor.x - pos.x, anchor.y - pos.y)) == ToVec(mouse)
  {
    ApproachCases(pos, Goal(mouse, anchor, pos), maxSpeed, m);
  }

  // ---------------------------------------------------------------- mouse rotation

  class MouseRotationController {
    var angleShift: int
    var history: seq<Vec>
    var movingAverageCount: int

    constructor()
      ensures angleShift == 0 && history == [] && movingAverageCount == 10
    {
      angleShift, history, movingAverageCount := 0, [], 10;
    }

    constructor WithShift(angleShift: int)
      ensures this.angleShift == angleShift && history == [] && movingAverageCount == 10
    {
      this.angleShift, history, movingAverageCount := angleShift, [], 10;
    }

    /** controlObject: off screen, or with the mouse on the anchor, nothing
        happens; otherwise the mouse's offset from the anchor joins the window
        and the target turns to the window's heading. */
    method ControlObject(target: Node, ctx: Context, geo: Geometry, m: MathLib) returns (r: Outcome)
      modifies this`history, target`rotation
      ensures !ctx.IsMouseInScreen() ==> r == Done && unchanged(this) && unchanged(target)
      ensures ctx.IsMouseInScreen() && ctx.mouseRelative.None? ==>
                r == Threw(NullPointer) && unchanged(this) && unchanged(target)
      ensures ctx.IsMouseInScreen() && ctx.mouseRelative.Some? ==>
                var a := old(target.AnchorPoint(geo));
                var d := Vec(ctx.mouseRelative.value.x as real - a.x, ctx.mouseRelative.value.y as real - a.y);
                && r == Done
                && (d == Vec(0.0, 0.0) ==> unchanged(this) && unchanged(target))
                && (d != Vec(0.0, 0.0) ==>
                      history == Slide(old(history), d, movingAverageCount)
                      && target.rotation == Heading(m, history, angleShift as real))
      ensures 1 <= movingAverageCount && |old(history)| <= movingAverageCount ==>
                |history| <= movingAverageCount
    {
      if !ctx.IsMouseInScreen() {
        return Done;
      }
      if ctx.mouseRelative.None? {
        return Threw(NullPointer);
      }
      var mouse := ctx.mouseRelative.value;
      var p := target.AnchorPoint(geo);
      if mouse.x as real == p.x && mouse.y as real == p.y {
        return Done;
      }
      var transform := Vec(mouse.x as real - p.x, mouse.y as real - p.y);
      history := history + [transform];
      if |history| > movingAverageCount {
        history := history[1..];
      }
      var s := SumWindow(history);
      target.SetRotation(m.toDegrees(m.atan2(s.y, s.x)) + angleShift as real);
      r := Done;
    }

    /** A non-positive count is rejected and changes nothing. */
    method SetMovingAverageCount(k: int) returns (r: Outcome)
      modifies this`movingAverageCount
      ensures k <= 0 ==> r == Threw(IllegalArgument) && movingAverageCount == old(movingAverageCount)
      ensures k > 0 ==> r == Done && movingAverageCount == k
    {
      if k <= 0 {
        return Threw(IllegalArgument);
      }
      movingAverageCount := k;
      r := Done;
    }
  }

  // ---------------------------------------------------------------- polygon

  /** The counters (point, step) after one call: the step advances, and
      reaching maxSpeed moves on to the next point with step 0. The comparison
      is of the int step with the double maxSpeed. */
  function Advance(point: int, step: int, maxSpeed: real): (r: (int, int))
    ensures r.0 == point + 1 <==> (step + 1) as real >= maxSpeed
    ensures r.0 == point ==> r.1 == step + 1
    ensures r.0 == point + 1 ==> r.1 == 0
    ensures step >= 0 ==> r.1 >= 0
    ensures maxSpeed > 0.0 ==> r.1 as real < maxSpeed
  {
    if (step + 1) as real >= maxSpeed then (point + 1, 0) else (point, step + 1)
  }

  /** The counters after n calls from (0, 0). */
  function AdvanceN(n: nat, maxSpeed: real): (int, int)
  {
    if n == 0 then (0, 0)
    else var c := AdvanceN(n - 1, maxSpeed); Advance(c.0, c.1, maxSpeed)
  }

  /** With a whole number N >= 1 of frames per edge, after n calls the point
      index and step are the quotient and remainder of n by N. */
  lemma {:induction false} AdvanceCounts(n: nat, frames: int)
    requires frames >= 1
    ensures var c := AdvanceN(n, frames as real);
            c.0 * frames + c.1 == n && 0 <= c.1 < frames && c.0 >= 0
  {
    if n > 0 {
      AdvanceCounts(n - 1, frames);
      var c := AdvanceN(n - 1, frames as real);
      var d := AdvanceN(n, frames as real);
      assert d == Advance(c.0, c.1, frames as real);
      if c.1 + 1 >= frames {
        assert d == (c.0 + 1, 0);
        assert (c.0 + 1) * frames == c.0 * frames + frames;
      } else {
        assert d == (c.0, c.1 + 1);
      }
    }
  }

  /** The point a fraction step / maxSpeed along the edge from vertex cp. */
  function EdgePoint(p: seq<IntPoint>, cp: nat, step: int, maxSpeed: real): Vec
    requires cp + 1 < |p| && maxSpeed != 0.0
  {
    var f := step as real / maxSpeed;
    Vec(p[cp].x as real + f * (p[cp + 1].x - p[cp].x) as real,
        p[cp].y as real + f * (p[cp + 1].y - p[cp].y) as real)
  }

  /** Step 0 is vertex cp, step maxSpeed is vertex cp + 1. */
  lemma EdgePointEnds(p: seq<IntPoint>, cp: nat, frames: int)
    requires cp + 1 < |p| && frames >= 1
    ensures EdgePoint(p, cp, 0, frames as real) == ToVec(p[cp])
    ensures EdgePoint(p, cp, frames, frames as real) == ToVec(p[cp + 1])
  {
    assert frames as real / frames as real == 1.0;
  }

  class PolygonController {
    const base: LocRotController
    /** The polygon's vertices (the first npoints of xpoints and ypoints). */
    var polygon: seq<IntPoint>
    var currentPoint: int
    var currentStep: int

    ghost predicate Valid()
      reads this
    {
      0 <= currentPoint && 0 <= currentStep
    }

    /** The constructors set the polygon, reset, and set maxSpeed to 12. */
    constructor(p: seq<IntPoint>)
      ensures Valid() && polygon == p && currentPoint == 0 && currentStep == 0
      ensures fresh(base) && base.maxSpeed == 12.0 && !base.rotateToFollow
      ensures base.history == [] && base.movingAverageCount == 15
    {
      base := new LocRotController();
      polygon, currentPoint, currentStep := p, 0, 0;
      new;
      base.SetMaxSpeed(12.0);
    }

    constructor WithRotation(p: seq<IntPoint>, rotateToFollow: bool, rotationOffset: int)
      ensures Valid() && polygon == p && currentPoint == 0 && currentStep == 0
      ensures fresh(base) && base.maxSpeed == 12.0 && base.rotateToFollow
      ensures base.rotationOffset == rotationOffset as real
      ensures base.history == [] && base.movingAverageCount == 15
    {
      base := new LocRotController.WithRotation(rotateToFollow, rotationOffset);
      polygon, currentPoint, currentStep := p, 0, 0;
      new;
      base.SetMaxSpeed(12.0);
    }

    /** canControl: there is a next vertex; the last vertex is never joined
        back to the first. */
    function CanControl(): (b: bool)
      reads this
      ensures currentPoint >= 0 && currentPoint + 1 >= |polygon| ==> !b
    {
      currentPoint + 1 < |polygon|
    }

    /** calculateControl, called only after canControl held. On the very first
        call the target jumps to vertex 0 and the displacement is zero;
        afterwards the displacement takes the target to the edge point of the
        current step. The counters advance either way. A maxSpeed of 0 makes
        the fraction undefined, reported as Arithmetic. */
    method CalculateControl(target: Node) returns (r: Result<Vec>)
      requires Valid() && CanControl()
      modifies this`currentPoint, this`currentStep, target`x, target`y
      ensures Valid()
      ensures (currentPoint, currentStep) == Advance(old(currentPoint), old(currentStep), base.maxSpeed)
      ensures old(currentStep) == 0 && old(currentPoint) == 0 ==>
                r == Ok(Vec(0.0, 0.0)) && Vec(target.x, target.y) == ToVec(polygon[0])
      ensures !(old(currentStep) == 0 && old(currentPoint) == 0) && base.maxSpeed == 0.0 ==>
                r == Err(Arithmetic) && unchanged(target)
      ensures !(old(currentStep) == 0 && old(currentPoint) == 0) && base.maxSpeed != 0.0 ==>
                && unchanged(target)
                && r.Ok?
                && Plus(Vec(target.x, target.y), r.value)
                   == EdgePoint(polygon, old(currentPoint), old(currentStep), base.maxSpeed)
    {
      if currentStep == 0 && currentPoint == 0 {
        target.SetX(polygon[0].x as real);
        target.SetY(polygon[0].y as real);
        var c := Advance(currentPoint, currentStep, base.maxSpeed);
        currentPoint, currentStep := c.0, c.1;
        return Ok(Vec(0.0, 0.0));
      }
      if base.maxSpeed == 0.0 {
        r := Err(Arithmetic);
      } else {
        var goal := EdgePoint(polygon, currentPoint, currentStep, base.maxSpeed);
        r := Ok(Vec(goal.x - target.x, goal.y - target.y));
      }
      var c := Advance(currentPoint, currentStep, base.maxSpeed);
      currentPoint, currentStep := c.0, c.1;
    }

    /** controlObject of the base class with this class's canControl and
        calculateControl. */
    method ControlObject(target: Node, m: MathLib) returns (r: Outcome)
      requires Valid()
      modifies this`currentPoint, this`currentStep, base`history
      modifies target`x, target`y, target`rotation
      ensures Valid()
      ensures !old(CanControl()) ==>
                r == Done && base.history == [] && unchanged(target) && unchanged(this)
      ensures old(CanControl()) ==>
                (currentPoint, currentStep) == Advance(old(currentPoint), old(currentStep), base.maxSpeed)
      ensures old(CanControl()) && old(currentStep) == 0 && old(currentPoint) == 0 ==>
                r == Done && Vec(target.x, target.y) == ToVec(polygon[0])
                && target.rotation == old(target.rotation) && base.history == old(base.history)
      ensures old(CanControl()) && !(old(currentStep) == 0 && old(currentPoint) == 0) && base.maxSpeed != 0.0 ==>
                r == Done
                && Vec(target.x, target.y) == EdgePoint(polygon, old(currentPoint), old(currentStep), base.maxSpeed)
                // The step to the edge point feeds the window and rotation as in Follow.
                && var goal := EdgePoint(polygon, old(currentPoint), old(currentStep), base.maxSpeed);
                   base.Followed(target, Vec(goal.x - old(target.x), goal.y - old(target.y)), m)
      ensures old(CanControl()) && !(old(currentStep) == 0 && old(currentPoint) == 0) && base.maxSpeed == 0.0 ==>
                r == Threw(Arithmetic) && unchanged(target) && base.history == old(base.history)
    {
      if !CanControl() {
        base.Release();
        return Done;
      }
      var d := CalculateControl(target);
      if d.Err? {
        return Threw(d.error);
      }
      base.Follow(target, d.value, m);
      r := Done;
    }

    /** reset and setPolygon both start over at vertex 0, step 0. */
    method Reset()
      modifies this`currentPoint, this`currentStep
      ensures Valid() && currentPoint == 0 && currentStep == 0
    {
      currentPoint, currentStep := 0, 0;
    }

    method SetPolygon(p: seq<IntPoint>)
      modifies this`polygon, this`currentPoint, this`currentStep
      ensures Valid() && polygon == p && currentPoint == 0 && currentStep == 0
    {
      polygon := p;
      Reset();
    }
  }

  // ---------------------------------------------------------------- constant motion

  class ConstantMovementController {
    var velocityX: real
    var velocityY: real
    var damping: real

    constructor(velocityX: real, velocityY: real)
      ensures this.velocityX == velocityX && this.velocityY == velocityY && damping == 1.0
    {
      this.velocityX, this.velocityY, damping := velocityX, velocityY, 1.0;
    }

    constructor WithDamping(velocityX: real, velocityY: real, damping: real)
      ensures this.velocityX == velocityX && this.velocityY == velocityY && this.damping == damping
    {
      this.velocityX, this.velocityY, this.damping := velocityX, velocityY, damping;
    }

    /** controlObject: move by the velocity, then damp the velocity. */
    method ControlObject(target: Node)
      modifies target`x, target`y, this`velocityX, this`velocityY
      ensures target.x == old(target.x) + old(velocityX) && target.y == old(target.y) + old(velocityY)
      ensures Damped(old(velocityX), damping, velocityX) && Damped(old(velocityY), damping, velocityY)
    {
      target.SetX(target.x + velocityX);
      target.SetY(target.y + velocityY);
      velocityX := velocityX * damping;
      velocityY := velocityY * damping;
    }

    method SetDamping(d: real)
      modifies this`damping
      ensures damping == d && velocityX == old(velocityX) && velocityY == old(velocityY)
    {
      damping := d;
    }

    method SetVelocityX(v: real)
      modifies this`velocityX
      ensures velocityX == v && velocityY == old(velocityY) && damping == old(damping)
    {
      velocityX := v;
    }

    method SetVelocityY(v: real)
      modifies this`velocityY
      ensures velocityY == v && velocityX == old(velocityX) && damping == old(damping)
    {
      velocityY := v;
    }
  }

  /** v is v0 after one damping step with factor d. */
  predicate Damped(v0: real, d: real, v: real)
  {
    v == v0 * d
  }

  /** One coordinate after n calls of controlObject: (position, velocity). */
  function Coast(x0: real, v0: real, damping: real, n: nat): (real, real)
  {
    if n == 0 then (x0, v0)
    else var s := Coast(x0, v0, damping, n - 1); (s.0 + s.1, s.1 * damping)
  }

  function Power(d: real, n: nat): real
  {
    if n == 0 then 1.0 else Power(d, n - 1) * d
  }

  /** After n calls the velocity is v0 * damping^n. */
  lemma {:induction false} CoastVelocity(x0: real, v0: real, damping: real, n: nat)
    ensures Coast(x0, v0, damping, n).1 == v0 * Power(damping, n)
  {
    if n > 0 {
      CoastVelocity(x0, v0, damping, n - 1);
      var p := Power(damping, n - 1);
      assert Coast(x0, v0, damping, n).1 == Coast(x0, v0, damping, n - 1).1 * damping;
      assert Power(damping, n) == p * damping;
      MulAssoc(v0, p, damping);
    }
  }

  lemma MulAssoc(a: real, b: real, c: real)
    ensures (a * b) * c == a * (b * c)
  {
  }

  /** Without damping (1.0, the default), n calls move by n * v0. */
  lemma {:induction false} CoastUndamped(x0: real, v0: real, n: nat)
    ensures Coast(x0, v0, 1.0, n) == (x0 + n as real * v0, v0)
  {
    if n > 0 {
      CoastUndamped(x0, v0, n - 1);
      assert (n - 1) as real * v0 + v0 == n as real * v0;
    }
  }

  class ConstantRotationController {
    var speed: real

    constructor(speed: real)
      ensures this.speed == speed
    {
      this.speed := speed;
    }

    /** controlObject: rotation := (rotation + speed) % 360, Java's remainder
        on doubles. */
    method ControlObject(target: Node)
      modifies target`rotation
      ensures target.rotation == JavaRemReal(old(target.rotation) + speed, 360.0)
    {
      target.SetRotation(JavaRemReal(target.rotation + speed, 360.0));
    }

    method SetSpeed(s: real)
      modifies this`speed
      ensures speed == s
    {
      speed := s;
    }
  }

  /** The rotation written is below 360 in magnitude, in [0, 360) when the
      sum is not negative, and an angle already in [0, 360) is kept. */
  lemma RotationWrap(r: real, speed: real)
    ensures Abs(JavaRemReal(r + speed, 360.0)) < 360.0
    ensures r + speed >= 0.0 ==> 0.0 <= JavaRemReal(r + speed, 360.0) < 360.0
    ensures 0.0 <= r + speed < 360.0 ==> JavaRemReal(r + speed, 360.0) == r + speed
  {
    var a := r + speed;
    if 0.0 <= a < 360.0 {
      assert a / 360.0 < 1.0;
      assert Trunc(a / 360.0) == 0;
    }
  }
}
