# JGame per-frame behaviour, modelled in Dafny

JGame is a small Java 2D game library. A game holds a root container of named
views; each frame, `BaseGame` walks the current view's object tree, advances
sprite animations, runs every object's controllers (which move, rotate, resize
or fade the object) and evaluates its listeners (which decide, from the input
state captured in a `Context`, whether to fire). This project models that
behaviour layer:

- the frame traversal and input bookkeeping of `BaseGame`, including the
  relative mouse point and the instance and hit-test queries of its `Context`;
- the view registry `GRootContainer`, sprite frame cycling in `GSprite`, size
  linking and animation delegation in `GContainer`, the 3 x 3 tile grid and
  wrap-around scrolling of `GParallax`, and the keyed image store `ImageCache`;
- the interpolation curves and the tween state machine (`TweenController` with
  its movement, size, rotation, scale and alpha kinds);
- the location/rotation controllers (keyboard, mouse, polygon, constant
  movement and rotation, platform physics);
- the listeners (button automaton, timer, delay, key, click, hit-test and
  parent-bounds).

Objects that the source updates in place are Dafny classes with `modifies`
clauses; pure computations are functions with lemmas about them. Java `double`
is `real`, Java `int` is `int`, and Java's `%` and `/` on ints and doubles are
written out with truncating helpers in `common.dfy`. The node type of the
library, `GObject.java`, is not part of this model: `scene.dfy` defines a
minimal `Node` class with the fields these files read and write, and setters
that only store. Geometry (anchor points, shape containment, hit tests) and
trigonometry (`atan2`, `sin`, `cos`, `sqrt`) are parameters.

Modules: `Common` (numbers, results), `Scene` (nodes and the context record),
`Sprite`, `RootContainer`, `Game`, `Interpolation`, `Tween`, `Controllers`,
`Platform`, `Parallax`, `ImageCache`, `Listeners`.

## Model

| member | source | states |
|---|---|---|
| Sprite.NextFrameIndex | src/jgame/GSprite.java:326-342 | with at most one image or a paused sprite the frame stays; otherwise it advances by one, wrapping from the last frame to 0, and stays in range |
| Sprite.StepForwardCycles | src/jgame/GSprite.java:326-342 | k frames of a playing sprite move frame f to (f + k) mod n |
| Sprite.PreviousFrameAsWritten | src/jgame/GSprite.java:448-463 | the code as written: it throws (division by zero) exactly when there are no images, and otherwise gives a value strictly between -n and n, which can be negative |
| Sprite.PreviousFrameAsWrittenCounterexamples | src/jgame/GSprite.java:448-463 | frame 0 of 2 becomes -1; an empty list throws; a paused sprite still moves; the corrected step gives 1, keeps 5 and keeps 1 |
| Sprite.PreviousFrameIndex | src/jgame/GSprite.java:448-463 | corrected step: same guard as nextFrame, steps back by one and wraps 0 to n-1, staying in range |
| Sprite.NextPreviousInverse | src/jgame/GSprite.java:448-463 | the corrected previous step undoes the next step and vice versa for every in-range frame |
| Sprite.GSprite.constructor | src/jgame/GSprite.java:216-218 | a new sprite has no images, frame 0, is playing, uses the rectangle primitive and has no nine-slice centre |
| Sprite.GSprite.Copy | src/jgame/GSprite.java:226-234 | the copy starts with the same images, nine-slice centre, primitive, frame and playing flag as the original |
| Sprite.GSprite.NextFrame | src/jgame/GSprite.java:326-342 | the frame becomes NextFrameIndex of the old frame; the frame stays within the image list |
| Sprite.GSprite.PreviousFrame | src/jgame/GSprite.java:448-463 | the corrected previous step; the frame stays within the image list |
| Sprite.GSprite.SetFrameNumber | src/jgame/GSprite.java:466-482 | succeeds iff 0 <= k < n and then sets the frame to k; otherwise IndexOutOfBoundsException and the frame is unchanged |
| Sprite.GSprite.SetImage | src/jgame/GSprite.java:494-513 | null throws NullPointerException after clearing the list; otherwise exactly one image, frame 0, and each dimension is adopted only where the image's is positive and the sprite's is not |
| Sprite.GSprite.SetImages | src/jgame/GSprite.java:542-554 | an empty list empties the image list and keeps frame and size; a list starting with null throws with the list emptied and frame and size kept; otherwise the image list equals the argument, the frame is 0 and each dimension is taken from the first image as setImage does |
| Sprite.GSprite.SetPlaying | src/jgame/GSprite.java:567-569 | stores the playing flag |
| Sprite.GSprite.SetPrimitive | src/jgame/GSprite.java:580-588 | null throws IllegalArgumentException and changes nothing; otherwise stores the primitive |
| Sprite.GContainer.constructor | src/jgame/GContainer.java:26-28 | a new container has no background sprite |
| Sprite.GContainer.SetWidth | src/jgame/GContainer.java:187-195 | the background sprite, if any, gets the same width and keeps its height; size linking is preserved |
| Sprite.GContainer.SetHeight | src/jgame/GContainer.java:167-175 | the background sprite, if any, gets the same height and keeps its width; size linking is preserved |
| Sprite.GContainer.SetBackgroundSprite | src/jgame/GContainer.java:145-154 | null keeps the size; a sprite gives the container the sprite's width and height; afterwards the sizes are linked |
| Sprite.GContainer.IsPlaying | src/jgame/GContainer.java:85-87 | true iff there is a background sprite and it is playing |
| Sprite.GContainer.NextFrame | src/jgame/GContainer.java:90-96 | delegates to the background sprite; no-op without one |
| Sprite.GContainer.PreviousFrame | src/jgame/GContainer.java:120-126 | delegates the corrected previous step to the background sprite; no-op without one |
| Sprite.GContainer.SetFrameNumber | src/jgame/GContainer.java:157-164 | delegates with the sprite's success condition; succeeds trivially without a sprite |
| Sprite.GContainer.SetPlaying | src/jgame/GContainer.java:178-184 | delegates; the container is then playing iff it has a sprite and the flag is true |
| RootContainer.GRootContainer.constructor | src/jgame/GRootContainer.java:58-62 | no views and no current view name |
| RootContainer.GRootContainer.SetCurrentView | src/jgame/GRootContainer.java:283-311 | null throws NullPointerException, an unregistered name throws NoSuchElementException, both changing nothing; otherwise the name becomes current and the hide/show events of SwitchEvents are appended |
| RootContainer.GRootContainer.AddView | src/jgame/GRootContainer.java:95-117 | a null name or view throws IllegalArgumentException and changes nothing; otherwise the entry is put (replacing one of the same name); the first view becomes current with its events, later views leave the current name and events alone |
| RootContainer.GRootContainer.AddViewAndSetCurrent | src/jgame/GRootContainer.java:132-135 | puts the view and makes its name current; null arguments throw IllegalArgumentException and change nothing; the hooks fired are those of a single switch from the old current name to the new view, whether or not addView already selected it |
| RootContainer.GRootContainer.ComponentRemoved | src/jgame/GRootContainer.java:138-153 | exactly the entries whose view is the removed object disappear; every other entry is kept unchanged |
| RootContainer.GRootContainer.GetCurrentView | src/jgame/GRootContainer.java:160-162 | NullPointerException iff there is no current name; otherwise the registered view, or none when the name is no longer mapped |
| RootContainer.GRootContainer.GetWidth | src/jgame/GRootContainer.java:216-230 | the maximum view width, attained by some view, or 0 when there are no views |
| RootContainer.GRootContainer.GetHeight | src/jgame/GRootContainer.java:169-184 | the maximum view height, attained by some view, or 0 when there are no views |
| RootContainer.SwitchEvents | src/jgame/GRootContainer.java:292-311 | re-selecting the current name fires nothing; a switch hides the old view if still mapped and then shows the new one |
| RootContainer.SelectTwice | src/jgame/GRootContainer.java:292-311 | selecting the same name twice fires events only for the first selection |
| Game.PostOrderPermutesPreOrder | src/jgame/BaseGame.java:840-875 | the post-order and pre-order traversals visit the same nodes with the same multiplicities |
| Game.PostOrderPermutesPreOrderAll | src/jgame/BaseGame.java:851-860 | the same for a list of child subtrees |
| Game.ControllersRunPostOrder | src/jgame/BaseGame.java:840-875 | in the update trace, controllers run once per node in post-order: children first, then the node itself |
| Game.ControllersRunPostOrderAll | src/jgame/BaseGame.java:851-860 | the same over a snapshot of children |
| Game.ControllersRunOncePerNode | src/jgame/BaseGame.java:840-875 | in a tree without repeated nodes, each node's controllers run exactly once per frame |
| Game.BaseGame.constructor | src/jgame/BaseGame.java:246-300 | no keys pressed, no mouse location, no button, a 320 x 240 game area, count 0 |
| Game.BaseGame.KeyPressed | src/jgame/BaseGame.java:57-59 | adds the key code to the pressed set |
| Game.BaseGame.KeyReleased | src/jgame/BaseGame.java:62-64 | removes the key code from the pressed set |
| Game.BaseGame.MouseMoved | src/jgame/BaseGame.java:76-94 | dragged, entered and moved all store the mouse location |
| Game.BaseGame.MouseExited | src/jgame/BaseGame.java:86-89 | clears the location and the button mask |
| Game.BaseGame.MousePressed | src/jgame/BaseGame.java:97-100 | stores the location and ORs the modifiers into the mask |
| Game.BaseGame.MouseReleased | src/jgame/BaseGame.java:103-105 | clears the released modifiers from the mask |
| Game.PressThenRelease | src/jgame/BaseGame.java:97-105 | after a press and a release with the same modifiers those buttons are up whatever they were before, every other button of the mask is as it was, and the mouse is at the press point |
| Game.BaseGame.UpdateComponent | src/jgame/BaseGame.java:840-875 | the object count grows by the number of nodes in the subtree, and the trace gains the frame step, children, controllers and listeners of each node in that order |
| Game.BaseGame.UpdateGame | src/jgame/BaseGame.java:880-883 | with no current name, NullPointerException and count 0; with an unmapped name, NullPointerException after counting 1; otherwise the count is the size of the current view's tree and the trace is its update trace |
| Game.BaseGame.CreateContext | src/jgame/BaseGame.java:332-513 | the context's mouse is on screen iff a location is stored; off screen both points are absent; the relative point is present iff there is also an object, and equals the absolute point shifted by every ancestor's corner; keys, mask and game bounds are copied; hitTestClass is the hit filter of the class instances of the root container's views, taken in the map's iteration order, and lists every view that is an instance and hits |
| Game.ViewListed | src/jgame/BaseGame.java:406-428 | a view that is an instance of the class and hits is in the hit-test list |
| Game.RelativeMouse | src/jgame/BaseGame.java:344-368 | the loop over the parent chain computes Relative of the chain's corners |
| Game.RelativeStep | src/jgame/BaseGame.java:344-368 | one more ancestor shifts the relative point by that ancestor's corner |
| Game.RelativeSubtractsCorners | src/jgame/BaseGame.java:344-368 | when every corner is on whole pixels, the relative point is the absolute point minus the sum of the corners |
| Game.InstancesArePreOrderFiltered | src/jgame/BaseGame.java:437-456 | the instances of a class are the pre-order traversal over all views, filtered by the class test |
| Game.AddToList | src/jgame/BaseGame.java:406-428 | the recursive walk appends exactly the class instances of the views, each node before its descendants |
| Game.HitTestClass | src/jgame/BaseGame.java:479-495 | keeps exactly the instances that hit the object, in order; the object itself is not excluded |
| Interpolation.CalculateInterpolation | src/jgame/controller/Interpolation.java:54-103 | a non-positive max throws NullPointerException; otherwise the value of the selected curve |
| Interpolation.ConstantIsStep | src/jgame/controller/Interpolation.java:65-67 | CONSTANT is 1 iff tick >= max and 0 iff tick < max |
| Interpolation.Endpoints | src/jgame/controller/Interpolation.java:54-103 | every curve is 0 at tick 0 and 1 at tick max |
| Interpolation.EaseMidpoint | src/jgame/controller/Interpolation.java:71-91 | for even max, EASE at max/2 is 0.5, and both EASE pieces agree at t = 1/2 |
| Interpolation.EaseBreakpoint | src/jgame/controller/Interpolation.java:71-91 | the integer test tick <= max/2 is exactly t <= 1/2 |
| Interpolation.EaseAsPoly | src/jgame/controller/Interpolation.java:71-91 | inside [0, max) EASE is the two-piece polynomial in t = tick/max |
| Interpolation.InUnitInterval | src/jgame/controller/Interpolation.java:54-103 | for 0 <= tick <= max every curve lies in [0, 1] |
| Interpolation.Monotone | src/jgame/controller/Interpolation.java:54-103 | for 0 <= a <= b <= max every curve is non-decreasing |
| Interpolation.MonotoneEaseIn | src/jgame/controller/Interpolation.java:92-95 | EASE_IN (t squared) is non-decreasing on [0, max] |
| Interpolation.MonotoneEaseOut | src/jgame/controller/Interpolation.java:96-99 | EASE_OUT (2t - t squared) is non-decreasing on [0, max] |
| Interpolation.MonotoneEase | src/jgame/controller/Interpolation.java:71-91 | EASE is non-decreasing on [0, max] across its breakpoint |
| Tween.Captured | src/jgame/controller/MovementTween.java:218-228 | after an interpolation a movement or size tween always has a start |
| Tween.TweenController.Movement | src/jgame/controller/MovementTween.java:44-191 | stores duration, interpolation, the optional start and the delta; tick 0, no next, no with-tweens |
| Tween.TweenController.MovementTo | src/jgame/controller/MovementTween.java:210-215 | delta is end - start, so p = 0 is the start and p = 1 the end |
| Tween.TweenController.Size | src/jgame/controller/SizeTween.java:45-121 | stores the optional start size and the size delta; tick 0 |
| Tween.TweenController.Rotation | src/jgame/controller/RotationTween.java:39-63 | change is end - start, so p = 0 gives the start and p = 1 the end |
| Tween.TweenController.Scale | src/jgame/controller/ScaleTween.java:38-62 | change is end - start, so p = 0 gives the start and p = 1 the end |
| Tween.TweenController.Alpha | src/jgame/controller/AlphaTween.java:37-61 | stores start and change end - start; tick 0 |
| Tween.TweenController.Interpolate | src/jgame/controller/MovementTween.java:218-228 | captures a missing start (anchor point for movement, current size for size), then writes start + delta * p to the tween's property (alpha clamped to [0, 1]) and leaves the other properties alone |
| Tween.TweenController.Step | src/jgame/controller/TweenController.java:161-177 | a non-positive duration throws; otherwise interpolates with the pre-increment tick, increments the tick by one, and after the last tick replaces itself by its successor in the target's controllers |
| Tween.TweenController.RunWith | src/jgame/controller/TweenController.java:148-157 | with no with-tweens nothing changes; with some and no fuel left the result is the stack overflow; with fresh with-tweens the target's controllers gain all of them in order, each has ticked once, and the owner and every other tween are unchanged |
| Tween.TweenController.ControlObject | src/jgame/controller/TweenController.java:141-178 | a no-op once tick > duration; otherwise the step above, preceded on tick 0 by adding and running the with-tweens; with fresh with-tweens the first call leaves the tick at 1, the with-tweens appended to the target's controllers (before this tween's own handover) and each at tick 1; every call that completes without an exception moves the tick to NextTick of the old one; the chain links are never changed |
| Tween.TweenController.Chain | src/jgame/controller/TweenController.java:97-124 | without a next link, sets next to the end; otherwise follows the links and sets the last one's next to the end, throwing IllegalArgumentException (changing nothing) exactly when the walk revisits a tween |
| Tween.TweenController.ChainAll | src/jgame/controller/TweenController.java:134-138 | an empty list changes nothing; the only failure is IllegalArgumentException |
| Tween.ChainCycleUndetected | src/jgame/controller/TweenController.java:97-124 | a.chain(b) then a.chain(a) succeeds (the walk from a ends at b, whose next is still null) and leaves the cycle a -> b -> a |
| Tween.TweenController.GetNext | src/jgame/controller/TweenController.java:185-187 | returns the next link |
| Tween.TweenController.SetNext | src/jgame/controller/TweenController.java:210-212 | changes only this tween's next link |
| Tween.TweenController.Unchain | src/jgame/controller/TweenController.java:223-225 | clears only this tween's next link |
| Tween.TweenController.With | src/jgame/controller/TweenController.java:248-254 | appends the tween only if absent, so a duplicate-free list stays duplicate-free and in order |
| Tween.TweenController.WithAll | src/jgame/controller/TweenController.java:264-268 | the list becomes the old list followed by NewOnes of the arguments: the tweens not already present, each once, in argument order; so it keeps its prefix, gains exactly the new tweens and stays duplicate-free |
| Tween.NewOnes | src/jgame/controller/TweenController.java:248-268 | the tweens that repeated with(t) calls add: every element comes from the arguments and was not present, every argument not present is included, and none repeats |
| Tween.NewOnesFresh | src/jgame/controller/TweenController.java:264-268 | distinct arguments none of which is present are all added, in argument order (with(a, b) on an empty list gives [a, b]) |
| Tween.TickAfterIsMin | src/jgame/controller/TweenController.java:141-165 | after n calls the tick is min(n, duration + 1) |
| Tween.RunsDurationPlusOne | src/jgame/controller/TweenController.java:141-178 | for a duration of at least 1, exactly duration + 1 calls are effective; the call with tick = duration is the last one and every later call is a no-op |
| Tween.RotationDoesNotWrap | src/jgame/controller/RotationTween.java:66-69 | a rotation from `from` to `to` stays between the two and ends exactly at `to`, with no reduction modulo 360 |
| Tween.RotationReaching | src/jgame/controller/RotationTween.java:66-69 | every angle between `from` and `to` is shown at some completion in [0, 1] |
| Tween.AlphaClamp | src/jgame/controller/AlphaTween.java:64-67 | the alpha written is always in [0, 1], and equals the unclamped value when start, end and p are in [0, 1] |
| Tween.ConvexBound | src/jgame/controller/AlphaTween.java:64-67 | with start, end and p in [0, 1] the interpolated value stays in [0, 1] |
| Controllers.SumWindow | src/jgame/controller/AbstractLocRotController.java:136-148 | the summation loop computes the vector sum of the history |
| Controllers.SlideWindow | src/jgame/controller/AbstractLocRotController.java:131-134 | adding to the window appends the new entry and drops the oldest exactly when the window was full, so it is the newest entries, at most count of them |
| Controllers.WindowStaysLong | src/jgame/controller/AbstractLocRotController.java:131-134 | an overlong window keeps its length: only one entry is dropped per call |
| Controllers.WindowIsLatest | src/jgame/controller/AbstractLocRotController.java:131-134 | starting empty, the window is always the last min(n, count) displacements |
| Controllers.LocRotController.constructor | src/jgame/controller/AbstractLocRotController.java:57-58 | unbounded speed (-1), no rotate-to-follow, empty history, window 15 |
| Controllers.LocRotController.WithRotation | src/jgame/controller/AbstractLocRotController.java:69-72 | rotate-to-follow is always on whatever the flag, with the given offset |
| Controllers.LocRotController.Release | src/jgame/controller/AbstractLocRotController.java:106-110 | when the controller cannot control, the history is cleared |
| Controllers.LocRotController.Follow | src/jgame/controller/AbstractLocRotController.java:114-148 | the target moves by exactly (dx, dy); when rotating and the move is non-zero the window slides and the rotation becomes the heading of the window plus the offset; otherwise history and rotation stay; the window never exceeds its count |
| Controllers.LocRotController.SetMaxSpeed | src/jgame/controller/AbstractLocRotController.java:197-199 | stores the speed |
| Controllers.LocRotController.SetMovingAverageCount | src/jgame/controller/AbstractLocRotController.java:210-219 | k <= 0 throws IllegalArgumentException and changes nothing; otherwise stores k |
| Controllers.LocRotController.SetRotateToFollow | src/jgame/controller/AbstractLocRotController.java:229-231 | stores the flag |
| Controllers.LocRotController.SetRotationOffset | src/jgame/controller/AbstractLocRotController.java:241-243 | stores the offset |
| Controllers.Direction | src/jgame/controller/KeyboardLocationController.java:69-92 | each axis is +1, -1 or 0, +1 iff only the positive key is pressed, -1 iff only the negative one |
| Controllers.KeyboardCases | src/jgame/controller/KeyboardLocationController.java:94-111 | a disallowed axis is 0; no keys give no move; only down-right is divided by the square root of 2; up-left and up-right are not; opposite keys cancel |
| Controllers.KeyboardLocationController.constructor | src/jgame/controller/KeyboardLocationController.java:40-44 | both axes allowed, the given speed, no rotation |
| Controllers.KeyboardLocationController.WithRotation | src/jgame/controller/KeyboardLocationController.java:59-64 | both axes allowed, the given speed, rotate-to-follow on with the offset |
| Controllers.KeyboardLocationController.CountKeys | src/jgame/controller/KeyboardLocationController.java:69-92 | the counting loop over the pressed keys yields Direction |
| Controllers.KeyboardLocationController.CalculateControl | src/jgame/controller/KeyboardLocationController.java:67-112 | the displacement is speed times the direction, with disallowed axes zeroed and down-right scaled |
| Controllers.KeyboardLocationController.CanControl | src/jgame/controller/KeyboardLocationController.java:115-117 | always true |
| Controllers.KeyboardLocationController.ControlObject | src/jgame/controller/AbstractLocRotController.java:105-150 | moves the target by the keyboard displacement, with the rotation window update of Follow |
| Controllers.KeyboardLocationController.SetHorizontalAllowed | src/jgame/controller/KeyboardLocationController.java:146-148 | stores the flag |
| Controllers.KeyboardLocationController.SetVerticalAllowed | src/jgame/controller/KeyboardLocationController.java:157-159 | stores the flag |
| Controllers.Goal | src/jgame/controller/MouseLocationController.java:55-56 | the goal position puts the anchor on the mouse |
| Controllers.ApproachCases | src/jgame/controller/MouseLocationController.java:62-84 | already at the goal gives no move; within reach or with unbounded speed the move lands on the goal; otherwise a step of length maxSpeed along the heading |
| Controllers.SnapPutsAnchorOnMouse | src/jgame/controller/MouseLocationController.java:55-73 | when the goal is within reach, after the move the anchor is exactly on the mouse |
| Controllers.MouseLocationController.constructor | src/jgame/controller/MouseLocationController.java:25-27 | limit-to-bounds on, unbounded speed, no rotation |
| Controllers.MouseLocationController.WithRotation | src/jgame/controller/MouseLocationController.java:38-40 | limit-to-bounds on, rotate-to-follow on with the offset |
| Controllers.MouseLocationController.CanControl | src/jgame/controller/MouseLocationController.java:88-93 | requires the mouse on screen; with limit-to-bounds and a parent, the parent's shape must contain the mouse |
| Controllers.MouseLocationController.CalculateControl | src/jgame/controller/MouseLocationController.java:43-85 | NullPointerException iff there is no relative mouse point |
| Controllers.MouseLocationController.ControlObject | src/jgame/controller/AbstractLocRotController.java:105-150 | cannot control: history cleared, target untouched; otherwise moves by the approach step with the window update |
| Controllers.MouseLocationController.SetLimitToBounds | src/jgame/controller/MouseLocationController.java:111-113 | stores the flag |
| Controllers.MouseRotationController.constructor | src/jgame/controller/MouseRotationController.java:46-48 | no shift, empty history, window 10 |
| Controllers.MouseRotationController.WithShift | src/jgame/controller/MouseRotationController.java:56-59 | the given shift, empty history, window 10 |
| Controllers.MouseRotationController.ControlObject | src/jgame/controller/MouseRotationController.java:62-107 | off screen or with the mouse on the anchor nothing changes; otherwise the window slides with mouse - anchor and the rotation becomes its heading plus the shift; the window never exceeds its count |
| Controllers.MouseRotationController.SetMovingAverageCount | src/jgame/controller/MouseRotationController.java:127-136 | k <= 0 throws IllegalArgumentException and changes nothing; otherwise stores k |
| Controllers.Advance | src/jgame/controller/PolygonController.java:66-96 | the step increments; when it reaches maxSpeed the point index advances and the step resets to 0; the step stays in [0, maxSpeed) |
| Controllers.AdvanceCounts | src/jgame/controller/PolygonController.java:66-96 | after n calls the counters are the quotient and remainder of n by the frames per edge |
| Controllers.EdgePointEnds | src/jgame/controller/PolygonController.java:79-87 | step 0 is the edge's first vertex and step maxSpeed its second |
| Controllers.PolygonController.constructor | src/jgame/controller/PolygonController.java:41-45 | the polygon, both counters 0, 12 frames per edge |
| Controllers.PolygonController.WithRotation | src/jgame/controller/PolygonController.java:58-63 | as above with rotate-to-follow on |
| Controllers.PolygonController.CanControl | src/jgame/controller/PolygonController.java:99-101 | false at the last vertex: the path never closes back to vertex 0 |
| Controllers.PolygonController.CalculateControl | src/jgame/controller/PolygonController.java:66-96 | the first call puts the target on vertex 0 with no move; later calls return the move that lands exactly on the edge point; counters advance |
| Controllers.PolygonController.ControlObject | src/jgame/controller/PolygonController.java:66-96 | the target ends on vertex 0 or on the current edge point; the step to the edge point slides the window and turns the target as Follow does; at the last vertex the history is cleared and nothing moves |
| Controllers.PolygonController.Reset | src/jgame/controller/PolygonController.java:115-118 | both counters 0 |
| Controllers.PolygonController.SetPolygon | src/jgame/controller/PolygonController.java:127-130 | stores the polygon and sets both counters to 0 |
| Controllers.ConstantMovementController.constructor | src/jgame/controller/ConstantMovementController.java:83-85 | the velocities with damping 1 |
| Controllers.ConstantMovementController.WithDamping | src/jgame/controller/ConstantMovementController.java:97-103 | the velocities and the damping |
| Controllers.ConstantMovementController.ControlObject | src/jgame/controller/ConstantMovementController.java:106-111 | the target moves by the old velocity, then each velocity is multiplied by the damping |
| Controllers.CoastVelocity | src/jgame/controller/ConstantMovementController.java:106-111 | after n calls the velocity is v0 times damping to the n |
| Controllers.CoastUndamped | src/jgame/controller/ConstantMovementController.java:106-111 | with damping 1, n calls move the target by n times v0 and keep the velocity |
| Controllers.ConstantMovementController.SetDamping | src/jgame/controller/ConstantMovementController.java:146-148 | stores the damping, velocities unchanged |
| Controllers.ConstantMovementController.SetVelocityX | src/jgame/controller/ConstantMovementController.java:156-158 | stores vx, the rest unchanged |
| Controllers.ConstantMovementController.SetVelocityY | src/jgame/controller/ConstantMovementController.java:166-168 | stores vy, the rest unchanged |
| Controllers.ConstantRotationController.constructor | src/jgame/controller/ConstantRotationController.java:27-29 | stores the speed |
| Controllers.ConstantRotationController.ControlObject | src/jgame/controller/ConstantRotationController.java:32-34 | the rotation becomes the Java remainder of rotation + speed by 360 |
| Controllers.RotationWrap | src/jgame/controller/ConstantRotationController.java:32-34 | the rotation written has magnitude below 360, is in [0, 360) for non-negative sums, and is unchanged when already in range |
| Controllers.ConstantRotationController.SetSpeed | src/jgame/controller/ConstantRotationController.java:51-53 | stores the speed |
| Platform.PhysicalData.constructor | src/jgame/controller/platform/PhysicalData.java:20-55 | all four coefficients default to 1 |
| Platform.PhysicalData.SetFriction | src/jgame/controller/platform/PhysicalData.java:104-106 | stores friction unvalidated, the other three unchanged |
| Platform.PhysicalData.SetSolidity | src/jgame/controller/platform/PhysicalData.java:115-117 | stores solidity, the other three unchanged |
| Platform.PhysicalData.SetSpringiness | src/jgame/controller/platform/PhysicalData.java:126-128 | stores springiness, the other three unchanged |
| Platform.PhysicalData.SetTraction | src/jgame/controller/platform/PhysicalData.java:137-139 | stores traction, the other three unchanged |
| Platform.PlatformInput | src/jgame/controller/platform/PlatformController.java:75-90 | jump iff the jump key is pressed; the horizontal count is in [-1, 1], 0 without left or right keys, and a direction key equal to the jump key never counts |
| Platform.MaxOfBounds | src/jgame/controller/platform/PlatformController.java:92-126 | the maximum coefficient over touched grounds is at least 0, bounds every ground's value, and is 0 with no ground |
| Platform.ClipCases | src/jgame/controller/platform/PlatformController.java:128-131 | a speed within the height is kept; otherwise it becomes height - 0.5 with the speed's sign |
| Platform.InTheAir | src/jgame/controller/platform/PlatformController.java:92-119 | with no ground touched, full gravity applies, jumping adds nothing and vx is unchanged |
| Platform.OnSolidGround | src/jgame/controller/platform/PlatformController.java:92-126 | on fully solid ground gravity is cancelled; with no horizontal input vx is never changed |
| Platform.JumpAndWalk | src/jgame/controller/platform/PlatformController.java:104-119 | jumping subtracts maxJump times springiness; walking adds traction times maxSpeed times the direction |
| Platform.PlatformController.constructor | src/jgame/controller/platform/PlatformController.java:28-64 | gravity 1, drag 0.75, max speed 5, max jump 5, at rest, not bound to a target |
| Platform.PlatformController.ReadKeys | src/jgame/controller/platform/PlatformController.java:75-90 | the loop over the pressed keys yields PlatformInput |
| Platform.PlatformController.MaxCoefficient | src/jgame/controller/platform/PlatformController.java:95-100 | the max-finding loop yields the maximum coefficient from 0 |
| Platform.PlatformController.Accelerate | src/jgame/controller/platform/PlatformController.java:92-111 | the vertical speed gains gravity reduced by solidity and loses the jump impulse |
| Platform.PlatformController.Steer | src/jgame/controller/platform/PlatformController.java:113-126 | the horizontal speed gains traction times speed times the input |
| Platform.PlatformController.ControlObject | src/jgame/controller/platform/PlatformController.java:67-132 | a second target throws IllegalArgumentException and changes nothing; otherwise binds the target, updates vx and the clipped vy, and moves the target by them |
| Platform.PlatformController.SetDrag | src/jgame/controller/platform/PlatformController.java:198-204 | values outside [0, 1] throw IllegalArgumentException and change nothing |
| Platform.PlatformController.SetGravity | src/jgame/controller/platform/PlatformController.java:213-215 | stores gravity |
| Platform.PlatformController.SetMaxJump | src/jgame/controller/platform/PlatformController.java:217-219 | stores the jump strength |
| Platform.PlatformController.SetMaxSpeed | src/jgame/controller/platform/PlatformController.java:221-223 | stores the speed |
| Parallax.TileCell | src/jgame/GParallax.java:148-153 | tile i is in column i / 3 and row i mod 3 of the 3 x 3 grid |
| Parallax.TileCellOfGridPosition | src/jgame/GParallax.java:148-153 | every grid cell is the cell of exactly one tile index |
| Parallax.TileOffset | src/jgame/GParallax.java:148-153 | tile i is placed at its column times the width and its row times the height |
| Parallax.Wrap | src/jgame/GParallax.java:120-133 | a coordinate inside [-size/3, 0] is kept; the wrap fails only for a zero size |
| Parallax.WrapRange | src/jgame/GParallax.java:112-134 | for a positive size the wrapped coordinate lies in [-size/3, 0] |
| Parallax.WrapShiftsByTiles | src/jgame/GParallax.java:121-134 | the wrap moves the coordinate by a whole number of tiles |
| Parallax.WrapIdempotent | src/jgame/GParallax.java:120-133 | wrapping a wrapped coordinate changes nothing |
| Parallax.ScrollController.constructor | src/jgame/GParallax.java:104-106 | a constant movement with the given velocities and damping 1 |
| Parallax.ScrollController.ControlObject | src/jgame/GParallax.java:109-135 | applies the constant-movement step, then wraps x by the width and y by the height |
| Parallax.ScrollController.WrapPosition | src/jgame/GParallax.java:112-134 | writes the wrapped coordinates of the moved position |
| Parallax.NewTile | src/jgame/GParallax.java:148-153 | a fresh top-left-anchored sprite node at the tile's offset, with a fresh copy of the sprite's images, frame, primitive, nine-slice centre and playing flag |
| Parallax.TiledSprite.constructor | src/jgame/GParallax.java:68-83 | no children, no tiles, no scroller |
| Parallax.TiledSprite.InitializeForSprite | src/jgame/GParallax.java:144-155 | old children replaced by nine distinct fresh tiles at their grid offsets, each with its own fresh copy of the sprite's picture; size (3w, 3h) and location (-w, -h) |
| Parallax.TiledSprite.ScrollAt | src/jgame/GParallax.java:165-171 | removes the previous scroller and adds a new one with the velocities, so the layer has exactly one |
| Parallax.ReplaceOnce | src/jgame/GParallax.java:165-171 | replacing the scroller leaves the new one exactly once and the old one gone |
| Parallax.GParallax.constructor | src/jgame/GParallax.java:25-32 | layerCount fresh layers, each anchored top-left and added as a child in order |
| Parallax.GParallax.SetWidth | src/jgame/GParallax.java:55-60 | the same width on the parallax and every layer, nothing else changed |
| Parallax.GParallax.SetHeight | src/jgame/GParallax.java:47-52 | the same height on the parallax and every layer, nothing else changed |
| Parallax.GParallax.SetLayerSprite | src/jgame/GParallax.java:42-44 | an index out of range throws; otherwise the layer is three sprites wide and high and sits at (-w, -h), its nine children are distinct fresh top-left-anchored tiles at their grid offsets, held in `sprites` in order, and each tile's picture is a fresh copy of the sprite (same images, frame, primitive, nine-slice centre, playing flag) |
| Parallax.GParallax.ScrollLayerAt | src/jgame/GParallax.java:185-187 | an index out of range throws; otherwise the layer scrolls with the velocities |
| ImageCache.NatToStringRoundTrip | src/jgame/ImageCache.java:219-231 | decimal formatting of a natural number parses back to it |
| ImageCache.IntToStringRoundTrip | src/jgame/ImageCache.java:219-231 | decimal formatting of an integer, sign included, parses back to it |
| ImageCache.IntToStringInjective | src/jgame/ImageCache.java:219-231 | distinct integers have distinct decimal strings |
| ImageCache.Lookup | src/jgame/ImageCache.java:139-177 | a hit returns the stored image unchanged; a miss on an unknown resource throws IllegalArgumentException before loading; a read failure returns null and stores nothing; a load is stored under the key; other keys are untouched |
| ImageCache.LookupAgainHits | src/jgame/ImageCache.java:145-151 | after a successful lookup, the same key hits without loading, whatever the resources do |
| ImageCache.SequentialKeys | src/jgame/ImageCache.java:219-231 | end - start + 1 keys (none if start > end), key j being prefix + name prefix + decimal(start + j) + suffix |
| ImageCache.SequentialKeysDistinct | src/jgame/ImageCache.java:219-231 | the sequential keys are pairwise distinct |
| ImageCache.DistinctNumbersDistinctKeys | src/jgame/ImageCache.java:219-231 | different numbers give different keys |
| ImageCache.FetchAllCaches | src/jgame/ImageCache.java:219-231 | a successful sequential fetch returns one result per key, and every non-null image is cached under its key |
| ImageCache.FetchAllStops | src/jgame/ImageCache.java:219-231 | the first exception ends the fetch: later keys are not looked up |
| ImageCache.ImageCache.constructor | src/jgame/ImageCache.java:113-129 | empty cache; a null prefix becomes "" |
| ImageCache.ImageCache.SetPrefix | src/jgame/ImageCache.java:251-261 | a null prefix becomes "" |
| ImageCache.ImageCache.Get | src/jgame/ImageCache.java:139-177 | the lookup of prefix + file name, with its effect on the cache |
| ImageCache.ImageCache.GetSequential | src/jgame/ImageCache.java:219-231 | the fetch of the sequential keys in increasing order |
| ImageCache.ImageCache.Remove | src/jgame/ImageCache.java:240-242 | removes prefix + file name and returns what it held; other entries unchanged |
| ImageCache.ImageCache.Evict | src/jgame/ImageCache.java:79 | weak entries may vanish at any time |
| ImageCache.EvictionIsInvisible | src/jgame/ImageCache.java:145-151 | when the store agrees with the resources, an evicted entry is reloaded to the same image |
| ImageCache.RemoveForcesReload | src/jgame/ImageCache.java:240-242 | after removal the next get loads the resource again and caches it |
| ImageCache.Registry.constructor | src/jgame/ImageCache.java:37-40 | no caches registered |
| ImageCache.Registry.Create | src/jgame/ImageCache.java:53-63 | a null class throws IllegalArgumentException; otherwise a fresh empty cache registered under its class |
| ImageCache.Registry.ForClass | src/jgame/ImageCache.java:72-74 | the last cache registered for the class, if any |
| Listeners.TransitionHooks | src/jgame/listener/ButtonListener.java:84-156 | each invoke fires at most one hook, one iff the state changes, and the hook names the change |
| Listeners.TransitionCases | src/jgame/listener/ButtonListener.java:85-144 | NONE hovers iff the mouse is over and no valid button is held; leaving beats pressing; HOVERED with a held button presses; PRESSED holds while held; release inside clicks, outside leaves |
| Listeners.EmptyMaskNeverPressed | src/jgame/listener/ButtonListener.java:174-176 | with an empty valid mask PRESSED is unreachable, yet hovering still works |
| Listeners.ButtonListener.constructor | src/jgame/listener/ButtonListener.java:52-69 | state NONE, valid mask BUTTON1 |
| Listeners.ButtonListener.Invoke | src/jgame/listener/ButtonListener.java:82-157 | the new state and the fired hook are the automaton's transition |
| Listeners.ButtonListener.IsValid | src/jgame/listener/ButtonListener.java:160-163 | always true |
| Listeners.ButtonListener.GetValidButtonMask | src/jgame/listener/ButtonListener.java:77-79 | returns the mask |
| Listeners.ButtonListener.SetValidButtonMask | src/jgame/listener/ButtonListener.java:221-223 | stores the mask |
| Listeners.TimerListener.New | src/jgame/listener/TimerListener.java:33-36 | a negative interval throws IllegalArgumentException; otherwise counter 0 |
| Listeners.TimerListener.IsValid | src/jgame/listener/TimerListener.java:48-50 | the counter becomes (t + 1) remainder interval and the result is whether it is 1; interval 0 divides by zero; the counter stays in [0, interval) |
| Listeners.TimerListener.GetInterval | src/jgame/listener/TimerListener.java:43-45 | returns the interval |
| Listeners.TimerListener.Reset | src/jgame/listener/TimerListener.java:55-57 | counter 0 |
| Listeners.TimerListener.SetInterval | src/jgame/listener/TimerListener.java:67-76 | negative values throw and change nothing; 0 is accepted |
| Listeners.TimerCounts | src/jgame/listener/TimerListener.java:48-50 | after n evaluations from 0 the counter is n mod interval |
| Listeners.TimerFires | src/jgame/listener/TimerListener.java:48-50 | valid exactly when n mod interval is 1: never for interval 1, on evaluations 1, 1 + interval, ... for interval >= 2 |
| Listeners.DelayListener.constructor | src/jgame/listener/DelayListener.java:27-29 | armed with the delay, -1 if negative |
| Listeners.DelayListener.GetDelay | src/jgame/listener/DelayListener.java:36-38 | returns the current countdown |
| Listeners.DelayListener.IsValid | src/jgame/listener/DelayListener.java:41-45 | true iff the countdown was 0; it decrements, floored at -1 |
| Listeners.DelayListener.SetDelay | src/jgame/listener/DelayListener.java:53-56 | stores the delay, or -1 if negative |
| Listeners.DelayCountsDown | src/jgame/listener/DelayListener.java:41-45 | after n evaluations the countdown is max(t0 - n, -1) |
| Listeners.DelayFiresOnce | src/jgame/listener/DelayListener.java:41-56 | after setDelay(d >= 0) exactly evaluation d + 1 is valid; a negative delay never fires |
| Listeners.GlobalKeyListener.FromCollection | src/jgame/listener/GlobalKeyListener.java:30-34 | the key set is the set of the given codes |
| Listeners.GlobalKeyListener.FromCodes | src/jgame/listener/GlobalKeyListener.java:42-54 | the loop builds the set of the given codes, duplicates collapsed |
| Listeners.GlobalKeyListener.IsValid | src/jgame/listener/GlobalKeyListener.java:57-61 | the key test on the pressed set |
| Listeners.KeysMatchCases | src/jgame/listener/GlobalKeyListener.java:57-61 | with a non-empty key set, valid iff a listed key is pressed; with an empty set, valid iff any key is pressed; never valid with nothing pressed |
| Listeners.LocalKeyListener.constructor | src/jgame/listener/LocalKeyListener.java:22-34 | wraps the global key test |
| Listeners.LocalKeyListener.IsValid | src/jgame/listener/LocalKeyListener.java:37-41 | valid iff the key test holds and the shape contains the relative mouse; containment is not evaluated when the key test fails |
| Listeners.GlobalClickValid | src/jgame/listener/GlobalClickListener.java:17-19 | valid iff the button mask is non-zero |
| Listeners.GlobalClickAnyButton | src/jgame/listener/GlobalClickListener.java:17-19 | any button bit makes it valid, and the mouse position does not matter |
| Listeners.LocalClickValid | src/jgame/listener/LocalClickListener.java:17-21 | valid iff a button is held and the shape contains the relative mouse; with no button, false without evaluating containment |
| Listeners.HitTestListener.ForClass | src/jgame/listener/HitTestListener.java:31-35 | class-wide mode: no instance |
| Listeners.HitTestListener.ForInstance | src/jgame/listener/HitTestListener.java:45-49 | stores class and instance |
| Listeners.HitTestListener.IsValid | src/jgame/listener/HitTestListener.java:52-55 | class mode: some instance of the class hits; instance mode: the instance precisely hits the target, the class ignored |
| Listeners.ParentBoundsListener.constructor | src/jgame/listener/ParentBoundsListener.java:22-28 | both axes checked |
| Listeners.ParentBoundsListener.IsValid | src/jgame/listener/ParentBoundsListener.java:31-44 | never valid without a parent; otherwise the vertical or the horizontal violation, each gated by its flag |
| Listeners.BoundsEdgesAllowed | src/jgame/listener/ParentBoundsListener.java:37-43 | a box touching the parent's edges is not a violation, and with a flag off its axis never is |
| Listeners.ParentBoundsListener.IsValidateHorizontal | src/jgame/listener/ParentBoundsListener.java:52-54 | returns the flag |
| Listeners.ParentBoundsListener.IsValidateVertical | src/jgame/listener/ParentBoundsListener.java:62-64 | returns the flag |
| Listeners.ParentBoundsListener.SetValidateHorizontal | src/jgame/listener/ParentBoundsListener.java:73-75 | stores the flag |
| Listeners.ParentBoundsListener.SetValidateVertical | src/jgame/listener/ParentBoundsListener.java:84-86 | stores the flag |

## Left out

- Window, canvas and frame pump (`BaseGame.run`, `renderGame`, `getBuffer`, `updateScreen`, `startGame`, `setupGUI`, and the Game, GameApplet and JSwingGame wrappers): Swing/AWT, threads and sleeping are I/O and concurrency.
- SoundManager: it wraps javax.sound with a thread; its key logic repeats ImageCache's.
- Painting (`paint`/`preparePaint`, nine-slice blitting, background fills, GMessage): these are rendering and font metrics.
- `GObject.java` is not part of this model: `Scene.Node` keeps only the fields these files touch, with setters that store, and has no validation of its own.
- Geometry is supplied from outside: anchor points, `createTransformedShape`/`contains`, `hitTest` and `preciseHitTest` are parameters (the `Geometry` record, shape predicates and hit functions).
- Trigonometry is supplied from outside: `atan2`, `sin`, `cos`, `sqrt` and degree conversion are fields of a `MathLib` record, with no identities assumed about them.
- Image decoding is an oracle (`Resources`): a resource is absent, fails to read, or decodes to an image.
- Java `double` is `real`: the model makes no claim about IEEE rounding, infinities or NaN. Where Java would produce NaN or infinity from a division or remainder by zero (the parallax wrap of a zero-size layer, a polygon with zero frames per edge), the model reports `Threw(Arithmetic)` and leaves the value unwritten.
- Java `int` overflow is not modelled; integers are unbounded.
- ImageCache.ImageCache.GetSequential: requires end < Integer.MAX_VALUE, because the Java loop `i <= end` never ends at the maximum.
- Game.Scaled: the game scale is the constant 1 (BaseGame.java:375-383), so the integer division of the mouse points by the scale is the identity, and other scales are not modelled.
- Game.BaseGame.UpdateComponent: runs over a snapshot tree of the view whose child order is the iteration order of the HashSet copy; effects of controllers and listeners on the tree during the pass are not modelled, and the trace records which node's step ran, not the Context passed to it.
- Game.IsSnapshot, Game.InstancesOfClass: the Java traversals descend only into GObjectHolders; the model descends into every node's children, which agrees with the source only as long as a node that is not a holder has no children. `GObject.java` is not part of this model, so that assumption is not checked.
- Game.BaseGame.CreateContext: the `instances` cache list is never populated in the source and is not modelled; instance queries always traverse the views.
- Tween.TweenController.ControlObject: the recursion into with-tweens takes a fuel bound; with a with-list that contains the tween itself the Java code recurses without end, which the model does not follow.
- Tween.TweenController.ControlObject, Tween.TweenController.RunWith: the first frame's with-tweens are stated in full only when they are fresh (distinct, at tick 0, with a positive duration, without with-tweens of their own, and not the owner); for reused or nested with-tweens only the final step of the owner (its Shows, its handover to the successor) and the unchanged chain links are promised, and what each with-tween writes into the target is left to its own contract.
- Parallax.TiledSprite.InitializeForSprite: a tile is one GSprite object in Java; the model keeps its scene half (a `Scene.Node` in the layer's children) and its picture half (a `Sprite.GSprite` in `pictures`) as two objects at the same index, so the identity of the two halves is not captured.
- Tween.TweenController.ChainAll: states the empty case and the exception type, not the combined effect of several appends.
- Controllers: the controllers' `rotateToFollow` heading uses `atan2` of the summed window through `MathLib`; nothing is proved about the angle itself.
- Platform.PlatformController.ControlObject: `getPointsOfContact` (ground filtering by hit tests and iterator removal) is an input list of touched grounds; `Ground.getSurfaceHeight` is never called and is not modelled.
- GRootContainer `add(GObject)` (the object as its own name) and the read-only `getObjects` view: view names are modelled as strings with an identity, so an object used as its own name is not expressible.
- Tween.TweenController.With, Parallax.GParallax.SetLayerSprite: the parameters are non-null. Java's `with(null)` stores the null, and the first frame then throws NullPointerException when it adds and invokes it; `setLayerSprite(index, null)` throws NullPointerException inside `initializeForSprite`. Neither null path is modelled.
- Parallax.GParallax.SetWidth, Parallax.GParallax.SetHeight: GParallax is a GContainer, so `super.setWidth`/`setHeight` also resize a background sprite set through `setBackgroundSprite`. The model's GParallax has no background sprite, so that resize is not captured.
- GParallax with a negative layer count (a Java `NegativeArraySizeException`) is excluded by the `nat` parameter.
- ImageCache `get` with a null file name is not modelled; file names are strings.
- Trigonometry-driven controllers (oscillation, pulsate, point orbit, polar constant movement) and EntranceExitController, whose effect lives in a class that is not part of this model.
- The interfaces and constant data (Controller, Listener, Context, ControlScheme, PlatformControlScheme, ButtonState, FrameListener, GObjectHolder, GPaintable, GAnimatable) appear as datatypes and fields inside the modules rather than as separate members.

## Findings

| source | as written | input that shows it | evidently intended | confidence | as-written member | corrected member |
|---|---|---|---|---|---|---|
| src/jgame/GSprite.java:448-463 | the guard `images.isEmpty() \|\| !playing` has an empty body, so previousFrame always computes (frame - 1) % n with Java's truncating remainder | frame 0 with 2 images gives frame -1; an empty image list divides by zero; a paused sprite still steps back | a guard that returns, taken as nextFrame's `images.size() <= 1 \|\| !playing` (GSprite.java:327), and a step back that wraps 0 to n - 1 | not executed | Sprite.PreviousFrameAsWritten, Sprite.PreviousFrameAsWrittenCounterexamples | Sprite.PreviousFrameIndex, Sprite.GSprite.PreviousFrame |
