/** The platformer physics of jgame.controller.platform: the surface
    coefficients of a ground and the controller that applies gravity, jumps
    and walking to the one node it controls. Which grounds the node touches
    is an input (the distance and hit tests are geometry). */
module Platform {
  import opened Common
  import opened Scene

  /** PhysicalData: four surface coefficients, each 1.0 by default and stored
      as given. */
  class PhysicalData {
    var friction: real
    var springiness: real
    var traction: real
    var solidity: real

    constructor()
      ensures friction == 1.0 && springiness == 1.0 && traction == 1.0 && solidity == 1.0
    {
      friction, springiness, traction, solidity := 1.0, 1.0, 1.0, 1.0;
    }

    method SetFriction(v: real)
      modifies this`friction
      ensures friction == v
      ensures springiness == old(springiness) && traction == old(traction) && solidity == old(solidity)
    {
      friction := v;
    }

    method SetSpringiness(v: real)
      modifies this`springiness
      ensures springiness == v
      ensures friction == old(friction) && traction == old(traction) && solidity == old(solidity)
    {
      springiness := v;
    }

    method SetTraction(v: real)
      modifies this`traction
      ensures traction == v
      ensures friction == old(friction) && springiness == old(springiness) && solidity == old(solidity)
    {
      traction := v;
    }

    method SetSolidity(v: real)
      modifies this`solidity
      ensures solidity == v
      ensures friction == old(friction) && springiness == old(springiness) && traction == old(traction)
    {
      solidity := v;
    }
  }

  datatype Coefficient = Friction | Springiness | Traction | Solidity

  function Coef(g: PhysicalData, c: Coefficient): real
    reads g
  {
    match c
    case Friction => g.friction
    case Springiness => g.springiness
    case Traction => g.traction
    case Solidity => g.solidity
  }

  /** One coefficient of every touched ground, in order. */
  function Values(grounds: seq<PhysicalData>, c: Coefficient): (vs: seq<real>)
    reads grounds
    ensures |vs| == |grounds|
    ensures forall i :: 0 <= i < |grounds| ==> vs[i] == Coef(grounds[i], c)
  {
    if grounds == [] then []
    else Values(grounds[..|grounds| - 1], c) + [Coef(grounds[|grounds| - 1], c)]
  }

  /** The running Math.max starting from 0: the largest value, or 0 when
      there is none or all are negative. */
  function MaxFrom0(vs: seq<real>): (m: real)
    ensures m >= 0.0
    ensures forall i :: 0 <= i < |vs| ==> vs[i] <= m
  {
    if vs == [] then 0.0
    else
      var m0 := MaxFrom0(vs[..|vs| - 1]);
      assert forall i :: 0 <= i < |vs| - 1 ==> vs[..|vs| - 1][i] == vs[i];
      Max(m0, vs[|vs| - 1])
  }

  /** The maximum is 0 or one of the values. */
  lemma {:induction false} MaxAttained(vs: seq<real>)
    ensures MaxFrom0(vs) == 0.0 || exists i :: 0 <= i < |vs| && vs[i] == MaxFrom0(vs)
  {
    if vs != [] {
      var u := vs[..|vs| - 1];
      MaxAttained(u);
      if MaxFrom0(vs) != vs[|vs| - 1] && MaxFrom0(vs) != 0.0 {
        var i :| 0 <= i < |u| && u[i] == MaxFrom0(u);
        assert vs[i] == MaxFrom0(vs);
      }
    }
  }

  /** The key codes of a PlatformControlScheme. */
  datatype PlatformControlScheme = PlatformControlScheme(lt: int, rt: int, jump: int)

  function Indicator(b: bool): int
  {
    if b then 1 else 0
  }

  /** The (horizontal, jump) pair the key loop yields. A key equal to jump
      counts only as jump, and a key equal to lt only as left (the tests are
      an if / else-if chain). */
  function PlatformInput(cs: PlatformControlScheme, pressed: set<int>): (r: (int, bool))
    ensures r.1 <==> cs.jump in pressed
    ensures -1 <= r.0 <= 1
    ensures cs.lt == cs.jump && cs.rt == cs.jump ==> r.0 == 0
    ensures cs.lt !in pressed && cs.rt !in pressed ==> r.0 == 0
  {
    (Indicator(cs.rt in pressed && cs.rt != cs.jump && cs.rt != cs.lt)
       - Indicator(cs.lt in pressed && cs.lt != cs.jump),
     cs.jump in pressed)
  }

  /** Math.copySign(magnitude, sign). */
  function CopySign(magnitude: real, sign: real): real
  {
    if sign < 0.0 then -Abs(magnitude) else Abs(magnitude)
  }

  /** The vertical velocity limit: a speed above the node's height is cut to
      height - 0.5 in magnitude, keeping its direction. */
  function Clip(vy: real, height: real): real
  {
    if Abs(vy) > height then CopySign(height - 0.5, vy) else vy
  }

  lemma ClipCases(vy: real, height: real)
    ensures Abs(vy) <= height ==> Clip(vy, height) == vy
    ensures Abs(vy) > height ==> Abs(Clip(vy, height)) == Abs(height - 0.5)
    ensures vy < 0.0 ==> Clip(vy, height) <= 0.0
    ensures vy >= 0.0 ==> Clip(vy, height) >= 0.0
    ensures height >= 0.5 ==> Abs(Clip(vy, height)) <= height
  {
  }

  /** The largest value of one coefficient over the touched grounds, as the
      max-finding loops compute it: 0 when no ground is touched. */
  function MaxOf(grounds: seq<PhysicalData>, c: Coefficient): real
    reads grounds
  {
    MaxFrom0(Values(grounds, c))
  }

  /** One more ground: the running maximum takes in its coefficient. */
  lemma MaxOfStep(grounds: seq<PhysicalData>, i: nat, c: Coefficient)
    requires i < |grounds|
    ensures MaxOf(grounds[..i + 1], c) == Max(MaxOf(grounds[..i], c), Coef(grounds[i], c))
  {
    assert grounds[..i + 1][..i] == grounds[..i];
    var vs := Values(grounds[..i + 1], c);
    assert vs == Values(grounds[..i], c) + [Coef(grounds[i], c)];
    assert vs[..|vs| - 1] == Values(grounds[..i], c);
  }

  lemma MaxOfBounds(grounds: seq<PhysicalData>, c: Coefficient)
    ensures MaxOf(grounds, c) >= 0.0
    ensures forall i :: 0 <= i < |grounds| ==> Coef(grounds[i], c) <= MaxOf(grounds, c)
    ensures grounds == [] ==> MaxOf(grounds, c) == 0.0
  {
    var vs := Values(grounds, c);
    assert forall i :: 0 <= i < |grounds| ==> vs[i] == Coef(grounds[i], c);
  }

  /** The vertical velocity after gravity, scaled by 1 - the highest
      solidity when a ground is touched, and a jump, pushed by the highest
      springiness; before the clip. */
  function Fall(vy: real, gravity: real, maxJump: real, jump: bool,
                touched: bool, maxSolidity: real, maxSpringiness: real): real
  {
    var g := if touched then gravity * (1.0 - maxSolidity) else gravity;
    var v := vy + g;
    if jump then v - maxJump * maxSpringiness else v
  }

  lemma FallUnfold(vy: real, gravity: real, maxJump: real, jump: bool, touched: bool,
                   maxSolidity: real, maxSpringiness: real, adjusted: real, nvy: real)
    requires adjusted == if touched then gravity * (1.0 - maxSolidity) else gravity
    requires nvy == if jump then vy + adjusted - maxJump * maxSpringiness else vy + adjusted
    ensures nvy == Fall(vy, gravity, maxJump, jump, touched, maxSolidity, maxSpringiness)
  {
  }

  /** The horizontal velocity after walking input h, scaled by the highest
      traction. */
  function Walk(vx: real, maxSpeed: real, h: int, maxTraction: real): real
  {
    if h != 0 then vx + maxTraction * maxSpeed * h as real else vx
  }

  /** In the air (no ground touched) the full gravity applies, a jump adds
      nothing and walking does not change the horizontal velocity. */
  lemma InTheAir(vx: real, vy: real, gravity: real, maxJump: real, jump: bool, maxSpeed: real, h: int)
    ensures Fall(vy, gravity, maxJump, jump, false, MaxOf([], Solidity), MaxOf([], Springiness)) == vy + gravity
    ensures Walk(vx, maxSpeed, h, MaxOf([], Traction)) == vx
  {
    MaxOfBounds([], Springiness);
    MaxOfBounds([], Traction);
  }

  /** On a fully solid ground (solidity 1, the default) gravity is cancelled,
      and without walking input vx never changes, whatever the friction. */
  lemma OnSolidGround(vy: real, gravity: real, vx: real, maxSpeed: real, maxTraction: real)
    ensures Fall(vy, gravity, 0.0, false, true, 1.0, 0.0) == vy
    ensures Walk(vx, maxSpeed, 0, maxTraction) == vx
  {
  }

  /** A jump from the ground lowers vy (upward is negative y) by maxJump times
      the highest springiness, and walking adds maxSpeed times the highest
      traction in the walking direction. */
  lemma JumpAndWalk(vy: real, gravity: real, maxJump: real, touched: bool, sol: real, spr: real,
                    vx: real, maxSpeed: real, tr: real)
    ensures Fall(vy, gravity, maxJump, true, touched, sol, spr)
            == Fall(vy, gravity, maxJump, false, touched, sol, spr) - maxJump * spr
    ensures Walk(vx, maxSpeed, 1, tr) == vx + tr * maxSpeed
    ensures Walk(vx, maxSpeed, -1, tr) == vx - tr * maxSpeed
  {
  }

  class PlatformController {
    const scheme: PlatformControlScheme
    /** The node this controller is bound to, once it has controlled one. */
    var controlled: Node?
    var gravity: real
    var drag: real
    var maxSpeed: real
    var maxJump: real
    var vx: real
    var vy: real

    constructor(scheme: PlatformControlScheme)
      ensures this.scheme == scheme && controlled == null
      ensures gravity == 1.0 && drag == 0.75 && maxSpeed == 5.0 && maxJump == 5.0
      ensures vx == 0.0 && vy == 0.0
    {
      this.scheme, controlled := scheme, null;
      gravity, drag, maxSpeed, maxJump := 1.0, 0.75, 5.0, 5.0;
      vx, vy := 0.0, 0.0;
    }

    /** The key loop of controlObject over the pressed keys, visited in
        `order` (the set's iteration order, each key once). */
    method ReadKeys(pressed: set<int>, order: seq<int>) returns (h: int, jump: bool)
      requires NoDup(order) && forall k :: k in order <==> k in pressed
      ensures (h, jump) == PlatformInput(scheme, pressed)
    {
      h, jump := 0, false;
      for i := 0 to |order|
        invariant jump <==> scheme.jump in order[..i]
        invariant h == Indicator(scheme.rt in order[..i] && scheme.rt != scheme.jump && scheme.rt != scheme.lt)
                       - Indicator(scheme.lt in order[..i] && scheme.lt != scheme.jump)
      {
        var key := order[i];
        assert key !in order[..i];
        assert order[..i + 1] == order[..i] + [key];
        if key == scheme.jump {
          jump := true;
        } else if key == scheme.lt {
          h := h - 1;
        } else if key == scheme.rt {
          h := h + 1;
        }
      }
      assert order[..|order|] == order;
    }

    /** One of the max-finding loops over the touched grounds. */
    static method MaxCoefficient(grounds: seq<PhysicalData>, c: Coefficient) returns (m: real)
      ensures m == MaxOf(grounds, c)
    {
      m := 0.0;
      for i := 0 to |grounds|
        invariant m == MaxOf(grounds[..i], c)
      {
        MaxOfStep(grounds, i, c);
        m := Max(m, Coef(grounds[i], c));
      }
      assert grounds[..|grounds|] == grounds;
    }

    /** The vertical velocity update of controlObject, before the clip. */
    method Accelerate(jump: bool, grounds: seq<PhysicalData>) returns (nvy: real)
      ensures nvy == Fall(vy, gravity, maxJump, jump, grounds != [],
                          MaxOf(grounds, Solidity), MaxOf(grounds, Springiness))
    {
      ghost var solidity, springiness := MaxOf(grounds, Solidity), MaxOf(grounds, Springiness);
      var adjustedGravity := gravity;
      if grounds != [] {
        var maxSolidity := MaxCoefficient(grounds, Solidity);
        adjustedGravity := adjustedGravity * (1.0 - maxSolidity);
      }
      nvy := vy + adjustedGravity;
      if jump {
        var maxSpringiness := MaxCoefficient(grounds, Springiness);
        nvy := nvy - maxJump * maxSpringiness;
      }
      FallUnfold(vy, gravity, maxJump, jump, grounds != [], solidity, springiness, adjustedGravity, nvy);
    }

    /** The horizontal velocity update of controlObject. Without walking
        input the friction maximum is computed and dropped. */
    method Steer(horizontal: int, grounds: seq<PhysicalData>) returns (nvx: real)
      ensures nvx == Walk(vx, maxSpeed, horizontal, MaxOf(grounds, Traction))
    {
      nvx := vx;
      if horizontal != 0 {
        var maxTraction := MaxCoefficient(grounds, Traction);
        nvx := nvx + maxTraction * maxSpeed * horizontal as real;
      } else {
        var maxFriction := MaxCoefficient(grounds, Friction);
      }
    }

    /** controlObject. The first node controlled binds the controller; another
        node is refused with IllegalArgumentException. `grounds` are the
        physical data of the grounds the node touches. The friction maximum
        is computed by the source but never used, and drag is never read. */
    method ControlObject(node: Node, ctx: Context, order: seq<int>, grounds: seq<PhysicalData>)
      returns (r: Outcome)
      requires NoDup(order) && forall k :: k in order <==> k in ctx.keyCodesPressed
      modifies this`controlled, this`vx, this`vy, node`x, node`y
      ensures old(controlled) != null && old(controlled) != node ==>
                r == Threw(IllegalArgument) && unchanged(this) && unchanged(node)
      ensures old(controlled) == null || old(controlled) == node ==>
                var input := PlatformInput(scheme, ctx.keyCodesPressed);
                && r == Done && controlled == node
                && vx == Walk(old(vx), maxSpeed, input.0, old(MaxOf(grounds, Traction)))
                && vy == Clip(Fall(old(vy), gravity, maxJump, input.1, grounds != [],
                                   old(MaxOf(grounds, Solidity)), old(MaxOf(grounds, Springiness))),
                              node.height)
                && node.x == old(node.x) + vx && node.y == old(node.y) + vy
    {
      if controlled != null && controlled != node {
        return Threw(IllegalArgument);
      }
      // The updates read nothing the binding writes, so they run first.
      var horizontal, jump := ReadKeys(ctx.keyCodesPressed, order);
      var nvy := Accelerate(jump, grounds);
      var nvx := Steer(horizontal, grounds);
      ghost var clipped := Clip(nvy, node.height);
      controlled := node;
      vx, vy := nvx, nvy;
      if Abs(vy) > node.height {
        vy := CopySign(node.height - 0.5, vy);
      }
      assert vy == clipped;
      ghost var x0, y0 := node.x, node.y;
      node.SetLocation(Vec(node.x + vx, node.y + vy));
      assert node.x == x0 + vx && node.y == y0 + vy;
      r := Done;
    }

    /** setDrag accepts only values in [0, 1]. */
    method SetDrag(d: real) returns (r: Outcome)
      modifies this`drag
      ensures (d < 0.0 || d > 1.0) ==> r == Threw(IllegalArgument) && drag == old(drag)
      ensures 0.0 <= d <= 1.0 ==> r == Done && drag == d
    {
      if d < 0.0 || d > 1.0 {
        return Threw(IllegalArgument);
      }
      drag := d;
      r := Done;
    }

    method SetGravity(g: real)
      modifies this`gravity
      ensures gravity == g
    {
      gravity := g;
    }

    method SetMaxJump(j: real)
      modifies this`maxJump
      ensures maxJump == j
    {
      maxJump := j;
    }

    method SetMaxSpeed(s: real)
      modifies this`maxSpeed
      ensures maxSpeed == s
    {
      maxSpeed := s;
    }
  }
}
