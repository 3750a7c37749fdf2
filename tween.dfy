/** Tweens (jgame.controller.TweenController and its five subclasses): a
    controller that drives one property of its target from a start value by a
    delta over a number of frames, then hands over to the next tween of its
    chain. */
module Tween {
  import opened Common
  import opened Interpolation
  import opened Scene

  /** Which property a tween drives, with the subclass's own start and delta.
      Movement and Size may be built without a start, which is then taken from
      the target on the first interpolation. */
  datatype TweenKind =
    | Movement(start: Option<Vec>, delta: Vec)
    | Size(start: Option<Vec>, delta: Vec)
    | Rotation(from: real, change: real)
    | Scale(from: real, change: real)
    | Alpha(from: real, change: real)

  /** start + delta * p, componentwise. */
  function At2(start: Vec, delta: Vec, p: real): Vec
  {
    Vec(start.x + delta.x * p, start.y + delta.y * p)
  }

  function At(start: real, delta: real, p: real): real
  {
    start + delta * p
  }

  function Sub(a: Vec, b: Vec): Vec
  {
    Vec(a.x - b.x, a.y - b.y)
  }

  /** The kind after the lazy capture of a missing start: the anchor point
      for a movement, the current (width, height) for a size tween. */
  function Captured(k: TweenKind, anchor: Vec, size: Vec): (c: TweenKind)
    ensures c.Movement? || c.Size? ==> c.start.Some?
  {
    match k
    case Movement(None, d) => Movement(Some(anchor), d)
    case Size(None, d) => Size(Some(size), d)
    case _ => k
  }

  /** The node shows the tween's value at completion p. */
  ghost predicate Shows(k: TweenKind, n: Node, p: real)
    reads n
  {
    match k
    case Movement(s, d) => s.Some? && Vec(n.x, n.y) == At2(s.value, d, p)
    case Size(s, d) => s.Some? && Vec(n.width, n.height) == At2(s.value, d, p)
    case Rotation(a, d) => n.rotation == At(a, d, p)
    case Scale(a, d) => n.scale == At(a, d, p)
    case Alpha(a, d) => n.alpha == Clamp01(At(a, d, p))
  }

  /** The properties of n a tween of this kind does not drive. */
  ghost function Untouched(k: TweenKind, n: Node): seq<real>
    reads n
  {
    match k
    case Movement(_, _) => [n.width, n.height, n.rotation, n.scale, n.alpha]
    case Size(_, _) => [n.x, n.y, n.rotation, n.scale, n.alpha]
    case Rotation(_, _) => [n.x, n.y, n.width, n.height, n.scale, n.alpha]
    case Scale(_, _) => [n.x, n.y, n.width, n.height, n.rotation, n.alpha]
    case Alpha(_, _) => [n.x, n.y, n.width, n.height, n.rotation, n.scale]
  }

  /** The controller list after a finished tween removed itself and queued
      its successor. */
  function Handover(cs: seq<object>, self: object, next: object?): seq<object>
  {
    RemoveFirst(cs, self) + (if next != null then [next] else [])
  }

  class TweenController {
    var tick: int
    const duration: int
    const interpolation: Interpolation
    var next: TweenController?
    var withTweens: seq<TweenController>
    var kind: TweenKind

    /** MovementTween with a delta and an optional start; the overloads without
        an Interpolation pass LINEAR. */
    constructor Movement(duration: int, interpolation: Interpolation, start: Option<Vec>, delta: Vec)
      ensures this.duration == duration && this.interpolation == interpolation
      ensures kind == TweenKind.Movement(start, delta)
      ensures tick == 0 && next == null && withTweens == []
    {
      this.duration, this.interpolation := duration, interpolation;
      kind := TweenKind.Movement(start, delta);
      tick, next, withTweens := 0, null, [];
    }

    /** MovementTween from start to end: delta = end - start. */
    constructor MovementTo(duration: int, interpolation: Interpolation, start: Vec, end: Vec)
      ensures this.duration == duration && this.interpolation == interpolation
      ensures kind == TweenKind.Movement(Some(start), Sub(end, start))
      ensures At2(start, kind.delta, 0.0) == start && At2(start, kind.delta, 1.0) == end
      ensures tick == 0 && next == null && withTweens == []
    {
      this.duration, this.interpolation := duration, interpolation;
      kind := TweenKind.Movement(Some(start), Sub(end, start));
      tick, next, withTweens := 0, null, [];
    }

    /** SizeTween with a delta and an optional start size. */
    constructor Size(duration: int, interpolation: Interpolation, start: Option<Vec>, delta: Vec)
      ensures this.duration == duration && this.interpolation == interpolation
      ensures kind == TweenKind.Size(start, delta)
      ensures tick == 0 && next == null && withTweens == []
    {
      this.duration, this.interpolation := duration, interpolation;
      kind := TweenKind.Size(start, delta);
      tick, next, withTweens := 0, null, [];
    }

    /** RotationTween from start to end. */
    constructor Rotation(duration: int, interpolation: Interpolation, start: real, end: real)
      ensures this.duration == duration && this.interpolation == interpolation
      ensures kind == TweenKind.Rotation(start, end - start)
      ensures At(start, kind.change, 0.0) == start && At(start, kind.change, 1.0) == end
      ensures tick == 0 && next == null && withTweens == []
    {
      this.duration, this.interpolation := duration, interpolation;
      kind := TweenKind.Rotation(start, end - start);
      tick, next, withTweens := 0, null, [];
    }

    /** ScaleTween from start to end. */
    constructor Scale(duration: int, interpolation: Interpolation, start: real, end: real)
      ensures this.duration == duration && this.interpolation == interpolation
      ensures kind == TweenKind.Scale(start, end - start)
      ensures At(start, kind.change, 0.0) == start && At(start, kind.change, 1.0) == end
      ensures tick == 0 && next == null && withTweens == []
    {
      this.duration, this.interpolation := duration, interpolation;
      kind := TweenKind.Scale(start, end - start);
      tick, next, withTweens := 0, null, [];
    }

    /** AlphaTween from start to end. */
    constructor Alpha(duration: int, interpolation: Interpolation, start: real, end: real)
      ensures this.duration == duration && this.interpolation == interpolation
      ensures kind == TweenKind.Alpha(start, end - start)
      ensures tick == 0 && next == null && withTweens == []
    {
      this.duration, this.interpolation := duration, interpolation;
      kind := TweenKind.Alpha(start, end - start);
      tick, next, withTweens := 0, null, [];
    }

    /** interpolate(target, context, p) of the five subclasses: capture a
        missing start, then write start + delta * p (clamped to [0, 1] for
        alpha) into the driven property. */
    method Interpolate(target: Node, geo: Geometry, p: real)
      modifies this`kind
      modifies target`x, target`y, target`width, target`height
      modifies target`rotation, target`scale, target`alpha
      ensures kind == Captured(old(kind), old(target.AnchorPoint(geo)), old(Vec(target.width, target.height)))
      ensures Shows(kind, target, p)
      ensures Untouched(kind, target) == old(Untouched(kind, target))
    {
      kind := Captured(kind, target.AnchorPoint(geo), Vec(target.width, target.height));
      match kind
      case Movement(s, d) => target.SetLocation(At2(s.value, d, p));
      case Size(s, d) =>
        var v := At2(s.value, d, p);
        target.SetSize(v.x, v.y);
      case Rotation(a, d) => target.SetRotation(At(a, d, p));
      case Scale(a, d) => target.SetScale(At(a, d, p));
      case Alpha(a, d) => target.SetAlpha(Min(1.0, Max(0.0, At(a, d, p))));
    }

    /** The part of controlObject after the with-tweens: interpolate at the
        current tick, advance, and on passing the duration remove this tween
        from the target and add the next one. A non-positive duration throws
        from calculateInterpolation before anything changes. */
    method Step(target: Node, geo: Geometry) returns (r: Outcome)
      modifies this`tick, this`kind
      modifies target`x, target`y, target`width, target`height
      modifies target`rotation, target`scale, target`alpha, target`controllers
      ensures duration <= 0 ==> r == Threw(NullPointer) && unchanged(this) && unchanged(target)
      ensures duration > 0 ==> r == Done
      ensures duration > 0 ==> tick == old(tick) + 1
      ensures duration > 0 ==> kind == Captured(old(kind), old(target.AnchorPoint(geo)), old(Vec(target.width, target.height)))
      ensures duration > 0 ==> Shows(kind, target, Curve(interpolation, old(tick), duration))
      ensures duration > 0 ==> Untouched(kind, target) == old(Untouched(kind, target))
      ensures duration > 0 ==> target.controllers ==
                                (if tick > duration then Handover(old(target.controllers), this, next)
                                 else old(target.controllers))
    {
      var p := CalculateInterpolation(interpolation, tick, duration);
      if p.Err? {
        return Threw(p.error);
      }
      Interpolate(target, geo, p.value);
      tick := tick + 1;
      if tick > duration {
        target.RemoveController(this);
        if next != null {
          target.AddController(next);
        }
      }
      r := Done;
    }

    /** The with-tweens are distinct, unstarted tweens with a positive
        duration and no with-tweens of their own, none of them the owner. */
    ghost predicate FreshWith()
      reads this, withTweens
    {
      && (forall k :: 0 <= k < |withTweens| ==>
            && withTweens[k] != this && withTweens[k].tick == 0
            && withTweens[k].withTweens == [] && withTweens[k].duration > 0)
      && (forall j, k :: 0 <= j < k < |withTweens| ==> withTweens[j] != withTweens[k])
    }

    /** The first-frame loop of controlObject: each with-tween in turn is
        added to the target and invoked once; the first exception ends the
        loop. With fresh with-tweens the target gains all of them and each
        has taken its first step. */
    method RunWith(target: Node, geo: Geometry, fuel: nat, ghost tweens: set<TweenController>)
      returns (r: Outcome)
      requires this in tweens && WithClosed(tweens)
      modifies tweens, target
      decreases fuel, 0
      ensures forall t :: t in tweens ==> t.withTweens == old(t.withTweens) && t.next == old(t.next)
      ensures withTweens == [] ==> r == Done && unchanged(tweens) && unchanged(target)
      ensures withTweens != [] && fuel == 0 ==> r == Threw(StackOverflow)
      ensures old(FreshWith()) && (withTweens == [] || fuel > 0) ==>
        && r == Done && unchanged(this)
        && target.controllers == old(target.controllers) + withTweens
        && (forall k :: 0 <= k < |withTweens| ==> withTweens[k].tick == 1)
        && (forall t :: t in tweens && t != this && t !in withTweens ==> unchanged(t))
    {
      ghost var simple := FreshWith() && (withTweens == [] || fuel > 0);
      var i := 0;
      while i < |withTweens|
        invariant 0 <= i <= |withTweens|
        invariant forall t :: t in tweens ==> t.withTweens == old(t.withTweens) && t.next == old(t.next)
        invariant i == 0 ==> unchanged(tweens) && unchanged(target)
        invariant fuel == 0 ==> i == 0
        invariant simple ==> unchanged(this) && target.controllers == old(target.controllers) + withTweens[..i]
        invariant simple ==> forall k :: 0 <= k < i ==> withTweens[k].tick == 1
        invariant simple ==> forall k :: i <= k < |withTweens| ==> unchanged(withTweens[k])
        invariant simple ==> forall t :: t in tweens && t != this && t !in withTweens ==> unchanged(t)
      {
        var w := withTweens[i];
        target.AddController(w);
        if fuel == 0 {
          return Threw(StackOverflow);
        }
        var rw := w.ControlObject(target, geo, fuel - 1, tweens);
        if rw.Threw? {
          return rw;
        }
        i := i + 1;
      }
      r := Done;
    }

    /** controlObject: a no-op once the tween has run past its duration. On
        the first frame every with-tween is added to the target and invoked
        once, before this tween takes its step. `fuel` bounds the depth of
        that recursion; running out is the StackOverflowError a cycle of
        with-tweens causes. */
    method ControlObject(target: Node, geo: Geometry, fuel: nat, ghost tweens: set<TweenController>)
      returns (r: Outcome)
      requires this in tweens && WithClosed(tweens)
      modifies tweens, target
      decreases fuel, 1
      ensures forall t :: t in tweens ==> t.withTweens == old(t.withTweens) && t.next == old(t.next)
      ensures old(tick) > duration ==> r == Done && unchanged(tweens) && unchanged(target)
      // A step without with-tweens to start: exactly what Step promises.
      ensures old(tick) <= duration && (old(tick) != 0 || old(withTweens) == []) ==>
        && (duration <= 0 ==> r == Threw(NullPointer) && unchanged(tweens) && unchanged(target))
        && (duration > 0 ==> r == Done && tick == old(tick) + 1)
        && (duration > 0 ==> kind == Captured(old(kind), old(target.AnchorPoint(geo)), old(Vec(target.width, target.height))))
        && (duration > 0 ==> Shows(kind, target, Curve(interpolation, old(tick), duration)))
        && (duration > 0 ==>
              target.controllers == (if tick > duration then Handover(old(target.controllers), this, next)
                                     else old(target.controllers)))
        && (forall t :: t in tweens && t != this ==> unchanged(t))
      // The first step after the with-tweens ran: stated on the final state.
      ensures old(tick) <= duration && r.Done? ==>
        && duration > 0
        && Shows(kind, target, Curve(interpolation, tick - 1, duration))
        && (tick > duration && next != null ==> |target.controllers| > 0 && target.controllers[|target.controllers| - 1] == next)
      // Every call that completes normally moves the tick as NextTick says,
      // which TickAfter and RunsDurationPlusOne count.
      ensures old(tick) > duration
              || (duration > 0 && (old(tick) != 0 || old(withTweens) == [] || (old(FreshWith()) && fuel > 0))) ==>
                r == Done && tick == NextTick(old(tick), duration)
      // The first frame with fresh with-tweens: each is added to the target
      // and takes its own first step, then this tween takes its step.
      ensures old(tick) == 0 && duration > 0 && old(FreshWith()) && (old(withTweens) == [] || fuel > 0) ==>
        && r == Done && tick == 1
        && target.controllers == (if tick > duration then Handover(old(target.controllers) + old(withTweens), this, next)
                                  else old(target.controllers) + old(withTweens))
        && (forall k :: 0 <= k < |old(withTweens)| ==> old(withTweens)[k].tick == 1)
        && (forall t :: t in tweens && t != this && t !in old(withTweens) ==> unchanged(t))
    {
      if tick > duration {
        return Done;
      }
      if tick == 0 {
        var rw := RunWith(target, geo, fuel, tweens);
        if rw.Threw? {
          return rw;
        }
      }
      r := Step(target, geo);
    }

    /** chain(end): append end after the last link of this tween's chain. The
        walk from next throws IllegalArgumentException when it revisits a
        tween; `path` is the walk, ending at the last link or at the repeat. */
    method Chain(end: TweenController?, ghost tweens: set<TweenController>)
      returns (r: Outcome, ghost path: seq<TweenController>)
      requires this in tweens && NextClosed(tweens) && (end == null || end in tweens)
      modifies tweens`next
      ensures NextClosed(tweens)
      ensures old(next) == null ==> r == Done && path == [] && next == end
      ensures old(next) == null ==> forall t :: t in tweens && t != this ==> t.next == old(t.next)
      ensures old(next) != null ==>
        |path| > 0 && path[0] == old(next) && (forall k :: 0 <= k < |path| ==> path[k] in tweens) &&
        (forall k :: 0 <= k < |path| - 1 ==> old(path[k].next) == path[k + 1])
      ensures old(next) != null ==> (r.Done? <==> NoDup(path))
      ensures old(next) != null && r.Done? ==>
        var last := path[|path| - 1];
        last in tweens && old(last.next) == null && last.next == end &&
        forall t :: t in tweens && t != last ==> t.next == old(t.next)
      ensures old(next) != null && r.Threw? ==>
        r.error == IllegalArgument && path[|path| - 1] in path[..|path| - 1] &&
        forall t :: t in tweens ==> t.next == old(t.next)
    {
      if next == null {
        next := end;
        return Done, [];
      }
      var current := next;
      var visited: set<TweenController> := {};
      path := [current];
      while current.next != null
        invariant |path| > 0 && path[0] == next && current == path[|path| - 1]
        invariant forall k :: 0 <= k < |path| ==> path[k] in tweens
        invariant visited <= tweens
        invariant Linked(path) && NoDup(path)
        invariant forall t :: t in visited <==> t in path[..|path| - 1]
        decreases tweens - visited
      {
        assert current !in visited;
        ghost var before := path;
        visited := visited + {current};
        current := current.next;
        path := path + [current];
        assert path[..|path| - 1] == before;
        if current in visited {
          ghost var j :| 0 <= j < |before| && before[j] == current;
          assert path[j] == path[|path| - 1];
          return Threw(IllegalArgument), path;
        }
      }
      current.next := end;
      r := Done;
    }

    /** chain(List) and chain(TweenController...): chain each in turn, stopping
        at the first that throws. */
    method ChainAll(ends: seq<TweenController?>, ghost tweens: set<TweenController>) returns (r: Outcome)
      requires this in tweens && NextClosed(tweens)
      requires forall k :: 0 <= k < |ends| ==> ends[k] == null || ends[k] in tweens
      modifies tweens`next
      ensures ends == [] ==> r == Done && unchanged(tweens)
      ensures r.Threw? ==> r.error == IllegalArgument
    {
      var i := 0;
      r := Done;
      while i < |ends|
        invariant 0 <= i <= |ends| && NextClosed(tweens)
        invariant r == Done
        invariant i == 0 ==> unchanged(tweens)
      {
        var rc;
        ghost var path;
        rc, path := Chain(ends[i], tweens);
        if rc.Threw? {
          return rc;
        }
        i := i + 1;
      }
    }

    method GetNext() returns (n: TweenController?)
      ensures n == next
    {
      n := next;
    }

    method SetNext(n: TweenController?)
      modifies this`next
      ensures next == n
    {
      next := n;
    }

    /** unchain(): cut the chain after this tween; later links keep theirs. */
    method Unchain()
      modifies this`next
      ensures next == null
    {
      next := null;
    }

    /** with(tween): add it unless already present. */
    method With(t: TweenController)
      modifies this`withTweens
      ensures withTweens == if t in old(withTweens) then old(withTweens) else old(withTweens) + [t]
      ensures NoDup(old(withTweens)) ==> NoDup(withTweens)
    {
      if t !in withTweens {
        withTweens := withTweens + [t];
      }
    }

    /** with(List) and with(TweenController...): add each in order. The list
        gains the new tweens in argument order, each once, keeps its old
        prefix, and stays free of duplicates. */
    method WithAll(ts: seq<TweenController>)
      modifies this`withTweens
      ensures withTweens == old(withTweens) + NewOnes(ts, old(withTweens))
      ensures old(withTweens) <= withTweens
      ensures forall t :: t in withTweens <==> t in old(withTweens) || t in ts
      ensures NoDup(old(withTweens)) ==> NoDup(withTweens)
    {
      var i := 0;
      while i < |ts|
        invariant 0 <= i <= |ts|
        invariant withTweens == old(withTweens) + NewOnes(ts[..i], old(withTweens))
        invariant old(withTweens) <= withTweens
        invariant forall t :: t in withTweens <==> t in old(withTweens) || t in ts[..i]
        invariant NoDup(old(withTweens)) ==> NoDup(withTweens)
      {
        assert ts[..i + 1][..i] == ts[..i];
        With(ts[i]);
        i := i + 1;
      }
      assert ts[..|ts|] == ts;
    }
  }

  /** The tweens of ts that are not in seen, each at its first occurrence,
      in the order of ts. */
  function NewOnes(ts: seq<TweenController>, seen: seq<TweenController>): (r: seq<TweenController>)
    ensures forall i :: 0 <= i < |r| ==> r[i] in ts && r[i] !in seen
    ensures forall i :: 0 <= i < |ts| && ts[i] !in seen ==> ts[i] in r
    ensures NoDup(r)
  {
    if ts == [] then []
    else
      var rest := NewOnes(ts[..|ts| - 1], seen);
      var t := ts[|ts| - 1];
      assert forall i :: 0 <= i < |ts| - 1 ==> ts[..|ts| - 1][i] == ts[i];
      if t in seen || t in rest then rest else rest + [t]
  }

  /** Distinct tweens none of which is already present are all added, in
      argument order: with(a, b) on an empty list gives [a, b]. */
  lemma {:induction false} NewOnesFresh(ts: seq<TweenController>, seen: seq<TweenController>)
    requires NoDup(ts) && forall k :: 0 <= k < |ts| ==> ts[k] !in seen
    ensures NewOnes(ts, seen) == ts
  {
    if ts != [] {
      var init := ts[..|ts| - 1];
      assert NoDup(init) by {
        forall j, k | 0 <= j < k < |init| ensures init[j] != init[k] {
          assert init[j] == ts[j] && init[k] == ts[k];
        }
      }
      NewOnesFresh(init, seen);
      assert ts[|ts| - 1] !in init;
      assert init + [ts[|ts| - 1]] == ts;
    }
  }

  /** The walk follows next links. */
  ghost predicate Linked(path: seq<TweenController>)
    reads set k | 0 <= k < |path| :: path[k]
  {
    forall k :: 0 <= k < |path| - 1 ==> path[k].next == path[k + 1]
  }

  /** Every with-tween of a tween in ts is in ts. */
  ghost predicate WithClosed(ts: set<TweenController>)
    reads ts
  {
    forall t, w :: t in ts && w in t.withTweens ==> w in ts
  }

  /** Every next link of a tween in ts is in ts. */
  ghost predicate NextClosed(ts: set<TweenController>)
    reads ts
  {
    forall t :: t in ts && t.next != null ==> t.next in ts
  }

  /** The tick after one controlObject call, errors aside. */
  function NextTick(tick: int, duration: int): int
  {
    if tick > duration then tick else tick + 1
  }

  /** The tick after n calls from tick 0. */
  function TickAfter(n: nat, duration: int): int
  {
    if n == 0 then 0 else NextTick(TickAfter(n - 1, duration), duration)
  }

  /** From tick 0 the tick after n calls is min(n, duration + 1). */
  lemma {:induction false} TickAfterIsMin(n: nat, duration: nat)
    ensures TickAfter(n, duration) == if n <= duration + 1 then n else duration + 1
  {
    if n > 0 {
      TickAfterIsMin(n - 1, duration);
    }
  }

  /** The number of the first n calls that interpolate (those starting at a
      tick <= duration). */
  function Effective(n: nat, duration: int): nat
  {
    if n == 0 then 0
    else Effective(n - 1, duration) + (if TickAfter(n - 1, duration) <= duration then 1 else 0)
  }

  /** A tween of duration D >= 1 interpolates on exactly D + 1 calls, and the
      last of them (call number D, counting from 0) is the one that passes the
      duration and hands over to the next tween. */
  lemma {:induction false} RunsDurationPlusOne(n: nat, duration: nat)
    requires duration >= 1
    ensures Effective(n, duration) == if n <= duration + 1 then n else duration + 1
    ensures n == duration ==> TickAfter(n, duration) <= duration < NextTick(TickAfter(n, duration), duration)
    ensures n > duration ==> TickAfter(n, duration) > duration
  {
    TickAfterIsMin(n, duration);
    if n > 0 {
      RunsDurationPlusOne(n - 1, duration);
      TickAfterIsMin(n - 1, duration);
    }
  }

  /** The tween itself does not wrap rotations: a rotation from `from` to
      `to` stays between the two by the plain linear formula and ends
      exactly at `to`, however far past 360 degrees that is. */
  lemma RotationDoesNotWrap(from: real, to: real, p: real)
    requires from <= to && 0.0 <= p <= 1.0
    ensures from <= At(from, to - from, p) <= to
    ensures At(from, to - from, 1.0) == to
  {
    ScaledBelow(to - from, p);
    assert At(from, to - from, p) == from + (to - from) * p;
  }

  /** Every angle between `from` and `to` is shown: this is the completion
      at which the rotation reaches `a`. */
  lemma RotationReaching(from: real, to: real, a: real) returns (q: real)
    requires from <= a <= to
    ensures 0.0 <= q <= 1.0 && At(from, to - from, q) == a
  {
    if to == from {
      q := 0.0;
    } else {
      var d := to - from;
      q := (a - from) / d;
      assert d * q == a - from;
      DivBelowOne(a - from, d);
    }
  }

  lemma DivBelowOne(a: real, b: real)
    requires 0.0 <= a <= b && b > 0.0
    ensures 0.0 <= a / b <= 1.0
  {
    assert a / b * b == a;
  }

  /** Alpha is always written inside [0, 1], and equals start + delta * p when
      start, end and p all lie in [0, 1]. */
  lemma AlphaClamp(start: real, end: real, p: real)
    ensures 0.0 <= Clamp01(At(start, end - start, p)) <= 1.0
    ensures 0.0 <= start <= 1.0 && 0.0 <= end <= 1.0 && 0.0 <= p <= 1.0 ==>
      Clamp01(At(start, end - start, p)) == At(start, end - start, p)
  {
    if 0.0 <= start <= 1.0 && 0.0 <= end <= 1.0 && 0.0 <= p <= 1.0 {
      // start + (end - start) p = (1 - p) start + p end, a convex combination
      ConvexBound(start, end, p);
    }
  }

  /** start + (end - start) p = (1 - p) start + p end lies between 0 and 1. */
  lemma ConvexBound(start: real, end: real, p: real)
    requires 0.0 <= start <= 1.0 && 0.0 <= end <= 1.0 && 0.0 <= p <= 1.0
    ensures 0.0 <= At(start, end - start, p) <= 1.0
  {
    var q := 1.0 - p;
    ConvexForm(start, end, p);
    ScaledBelow(q, start);
    ScaledBelow(p, end);
    SumBound(q * start, p * end, q, p);
  }

  lemma SumBound(u: real, w: real, q: real, p: real)
    requires 0.0 <= u <= q && 0.0 <= w <= p && q + p == 1.0
    ensures 0.0 <= u + w <= 1.0
  {
  }

  lemma ConvexForm(start: real, end: real, p: real)
    ensures At(start, end - start, p) == (1.0 - p) * start + p * end
  {
  }

  lemma ScaledBelow(a: real, b: real)
    requires 0.0 <= a && 0.0 <= b <= 1.0
    ensures 0.0 <= a * b <= a
  {
    assert a * b <= a * 1.0;
  }

  /** A chain of two whose second link is appended back to the first is
      accepted: the walk from next stops at the old last link before the new
      cycle exists. */
  method ChainCycleUndetected() returns (a: TweenController, b: TweenController, r: Outcome)
    ensures r == Done && a.next == b && b.next == a
  {
    a := new TweenController.Rotation(10, LINEAR, 0.0, 90.0);
    b := new TweenController.Rotation(10, LINEAR, 90.0, 180.0);
    ghost var path;
    var r1;
    r1, path := a.Chain(b, {a, b});
    assert a.next == b && b.next == null;
    label Second:
    r, path := a.Chain(a, {a, b});
    assert old@Second(path[0].next) == null;
  }
}
