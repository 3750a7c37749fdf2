/** The listeners of jgame.listener: a three-state button automaton, two
    counters, and the predicates that decide whether a listener fires. Shape
    containment and precise hit tests are geometry the model takes as given
    predicates. */
module Listeners {
  import opened Common
  import opened Scene

  // ---------------------------------------------------------------- buttons

  datatype ButtonState = NONE | HOVERED | PRESSED

  /** The overridable hook an invocation calls. */
  datatype Hook = MouseOver | MouseOut | MouseDown | MouseClicked

  /** Whether the mouse is on screen and inside the shape; the shape is only
      consulted for an on-screen point. */
  predicate MouseOverShape(ctx: Context, shape: IntPoint -> bool)
  {
    ctx.IsMouseInScreen() && shape(ctx.mouseAbsolute.value)
  }

  /** isValidButton: some bit of the mask is a valid button. */
  predicate IsValidButton(mask: Mask, validMask: Mask)
  {
    mask & validMask != 0
  }

  /** One step of the automaton: the new state and the hook called, if any,
      given whether the mouse is over the button and whether a valid button is
      held. */
  function Transition(s: ButtonState, over: bool, held: bool): (ButtonState, Option<Hook>)
  {
    match s
    case NONE => if over && !held then (HOVERED, Some(MouseOver)) else (NONE, None)
    case HOVERED =>
      if !over then (NONE, Some(MouseOut))
      else if held then (PRESSED, Some(MouseDown))
      else (HOVERED, None)
    case PRESSED =>
      if held then (PRESSED, None)
      else if over then (HOVERED, Some(MouseClicked))
      else (NONE, Some(MouseOut))
  }

  /** A hook is called exactly when the state changes, and which hook it is
      follows from the old and new states. */
  lemma TransitionHooks(s: ButtonState, over: bool, held: bool)
    ensures var (s', h) := Transition(s, over, held);
      && (h.Some? <==> s' != s)
      && (h == Some(MouseOver) <==> s == NONE && s' == HOVERED)
      && (h == Some(MouseDown) <==> s == HOVERED && s' == PRESSED)
      && (h == Some(MouseClicked) <==> s == PRESSED && s' == HOVERED)
      && (h == Some(MouseOut) <==> s != NONE && s' == NONE)
  {
  }

  /** From NONE: hover iff over the button with no valid button held. From
      HOVERED: leaving wins over a press. From PRESSED: nothing changes while a
      valid button is held, wherever the mouse is. */
  lemma TransitionCases(s: ButtonState, over: bool, held: bool)
    ensures s == NONE ==> (Transition(s, over, held).0 == HOVERED <==> over && !held)
    ensures s == HOVERED && !over ==> Transition(s, over, held) == (NONE, Some(MouseOut))
    ensures s == HOVERED && over && held ==> Transition(s, over, held) == (PRESSED, Some(MouseDown))
    ensures s == PRESSED && held ==> Transition(s, over, held) == (PRESSED, None)
    ensures s == PRESSED && !held ==>
      Transition(s, over, held) == if over then (HOVERED, Some(MouseClicked)) else (NONE, Some(MouseOut))
  {
  }

  /** The states reached from s by a run of (over, mask) observations. */
  function Run(s: ButtonState, inputs: seq<(bool, Mask)>, validMask: Mask): ButtonState
    decreases |inputs|
  {
    if inputs == [] then s
    else Run(Transition(s, inputs[0].0, IsValidButton(inputs[0].1, validMask)).0, inputs[1..], validMask)
  }

  /** With a valid-button mask of 0 no button is ever valid, so PRESSED is
      never reached from NONE or HOVERED, while hovering still happens. */
  lemma {:induction false} EmptyMaskNeverPressed(s: ButtonState, inputs: seq<(bool, Mask)>)
    requires s != PRESSED
    ensures Run(s, inputs, 0) != PRESSED
    ensures Run(NONE, [(true, BUTTON1_MASK)], 0) == HOVERED
    decreases |inputs|
  {
    if inputs != [] {
      var held := IsValidButton(inputs[0].1, 0);
      assert !held;
      EmptyMaskNeverPressed(Transition(s, inputs[0].0, held).0, inputs[1..]);
    }
  }

  class ButtonListener {
    var buttonState: ButtonState
    var validButtonMask: Mask

    constructor()
      ensures buttonState == NONE && validButtonMask == BUTTON1_MASK
    {
      buttonState, validButtonMask := NONE, BUTTON1_MASK;
    }

    /** invoke: one step of the automaton; returns the hook it called. */
    method Invoke(ctx: Context, absoluteShape: IntPoint -> bool) returns (hook: Option<Hook>)
      modifies this`buttonState
      ensures (buttonState, hook) ==
        Transition(old(buttonState), MouseOverShape(ctx, absoluteShape),
                   IsValidButton(ctx.mouseButtonMask, validButtonMask))
    {
      var over := MouseOverShape(ctx, absoluteShape);
      var held := IsValidButton(ctx.mouseButtonMask, validButtonMask);
      match buttonState
      case NONE =>
        if over && !held {
          buttonState := HOVERED;
          hook := Some(MouseOver);
        } else {
          hook := None;
        }
      case HOVERED =>
        if !over {
          buttonState := NONE;
          hook := Some(MouseOut);
        } else if held {
          buttonState := PRESSED;
          hook := Some(MouseDown);
        } else {
          hook := None;
        }
      case PRESSED =>
        if !held {
          if over {
            buttonState := HOVERED;
            hook := Some(MouseClicked);
          } else {
            buttonState := NONE;
            hook := Some(MouseOut);
          }
        } else {
          hook := None;
        }
    }

    /** isValid: a button listener is invoked every frame. */
    function IsValid(): (b: bool)
      ensures b
    {
      true
    }

    function GetValidButtonMask(): (m: Mask)
      reads this
      ensures m == validButtonMask
    {
      validButtonMask
    }

    method SetValidButtonMask(m: Mask)
      modifies this`validButtonMask
      ensures validButtonMask == m
    {
      validButtonMask := m;
    }
  }

  // ---------------------------------------------------------------- counters

  class TimerListener {
    var interval: int
    var t: int

    ghost predicate Valid()
      reads this
    {
      interval >= 0
    }

    /** TimerListener(interval): setInterval rejects a negative interval. */
    static method New(interval: int) returns (r: Result<TimerListener>)
      ensures r.Err? <==> interval < 0
      ensures r.Err? ==> r.error == IllegalArgument
      ensures r.Ok? ==> fresh(r.value) && r.value.Valid() && r.value.interval == interval && r.value.t == 0
    {
      if interval < 0 {
        return Err(IllegalArgument);
      }
      var l := new TimerListener.Init(interval);
      r := Ok(l);
    }

    constructor Init(interval: int)
      requires interval >= 0
      ensures Valid() && this.interval == interval && t == 0
    {
      this.interval, t := interval, 0;
    }

    /** isValid: t = ++t % interval, true iff the new t is 1. With interval 0
        the increment happens and then the remainder throws. */
    method IsValid() returns (r: Result<bool>)
      modifies this`t
      ensures interval == 0 ==> r == Err(Arithmetic) && t == old(t) + 1
      ensures interval != 0 ==> t == JavaRem(old(t) + 1, interval) && r == Ok(t == 1)
      ensures Valid() && interval > 0 && 0 <= old(t) ==> 0 <= t < interval
    {
      t := t + 1;
      if interval == 0 {
        return Err(Arithmetic);
      }
      t := JavaRem(t, interval);
      r := Ok(t == 1);
    }

    method GetInterval() returns (i: int)
      ensures i == interval
    {
      i := interval;
    }

    method Reset()
      modifies this`t
      ensures t == 0
    {
      t := 0;
    }

    /** setInterval: negative intervals are rejected and change nothing; 0 is
        accepted. */
    method SetInterval(i: int) returns (r: Outcome)
      modifies this`interval
      ensures i < 0 ==> r == Threw(IllegalArgument) && interval == old(interval)
      ensures i >= 0 ==> r == Done && interval == i
    {
      if i < 0 {
        return Threw(IllegalArgument);
      }
      interval := i;
      r := Done;
    }
  }

  /** The timer's t after n evaluations from t0. */
  function TimerAfter(t0: int, n: nat, interval: int): int
    requires interval > 0
  {
    if n == 0 then t0 else JavaRem(TimerAfter(t0, n - 1, interval) + 1, interval)
  }

  /** n mod k by repeated subtraction. */
  function CountMod(n: nat, k: nat): (r: nat)
    requires k > 0
    ensures r < k
  {
    if n < k then n else CountMod(n - k, k)
  }

  /** Counting one more wraps at k. */
  lemma {:induction false} CountModStep(n: nat, k: nat)
    requires k > 0 && n >= 1
    ensures CountMod(n, k) == if CountMod(n - 1, k) + 1 == k then 0 else CountMod(n - 1, k) + 1
  {
    if n > k {
      CountModStep(n - k, k);
    }
  }

  lemma JavaRemSmall(a: int, b: int)
    requires 0 <= a < b
    ensures JavaRem(a, b) == a
  {
    JavaDivOfNat(a, b);
    assert a / b == 0;
  }

  lemma JavaRemSelf(b: int)
    requires b > 0
    ensures JavaRem(b, b) == 0
  {
    JavaDivOfNat(b, b);
    assert b / b == 1;
  }

  /** From t = 0 the timer after n evaluations is n mod interval. */
  lemma {:induction false} TimerCounts(n: nat, interval: int)
    requires interval > 0
    ensures TimerAfter(0, n, interval) == CountMod(n, interval)
  {
    if n > 0 {
      TimerCounts(n - 1, interval);
      CountModStep(n, interval);
      var prev := CountMod(n - 1, interval);
      if prev + 1 < interval {
        JavaRemSmall(prev + 1, interval);
      } else {
        JavaRemSelf(interval);
      }
    }
  }

  /** n = 1 + q k leaves remainder 1 for k >= 2. */
  lemma {:induction false} CountModOnePlusMultiple(q: nat, k: nat)
    requires k >= 2
    ensures CountMod(1 + q * k, k) == 1
  {
    if q > 0 {
      CountModOnePlusMultiple(q - 1, k);
      assert 1 + q * k - k == 1 + (q - 1) * k;
    }
  }

  /** From t = 0 (after construction or reset), evaluation n (counting from
      1) is valid iff n mod interval == 1: so evaluations 1, 1 + interval,
      1 + 2 interval, ... fire for interval >= 2, and none for interval 1. */
  lemma TimerFires(n: nat, q: nat, interval: int)
    requires interval > 0
    ensures TimerAfter(0, n, interval) == 1 <==> CountMod(n, interval) == 1
    ensures interval == 1 ==> TimerAfter(0, n, interval) != 1
    ensures interval >= 2 ==> TimerAfter(0, 1 + q * interval, interval) == 1
  {
    TimerCounts(n, interval);
    if interval >= 2 {
      TimerCounts(1 + q * interval, interval);
      CountModOnePlusMultiple(q, interval);
    }
  }

  class DelayListener {
    var timer: int

    ghost predicate Valid()
      reads this
    {
      timer >= -1
    }

    /** DelayListener(delay): arm with setDelay. */
    constructor(delay: int)
      ensures Valid() && timer == ArmedValue(delay)
    {
      timer := ArmedValue(delay);
    }

    method GetDelay() returns (d: int)
      ensures d == timer
    {
      d := timer;
    }

    /** isValid: true iff the countdown was at 0; it then steps down, never
        below -1. */
    method IsValid() returns (b: bool)
      modifies this`timer
      ensures b <==> old(timer) == 0
      ensures timer == DelayStep(old(timer))
      ensures old(Valid()) ==> Valid()
    {
      var oldTimer := timer;
      timer := if -1 >= timer - 1 then -1 else timer - 1;
      b := oldTimer == 0;
    }

    method SetDelay(delay: int)
      modifies this`timer
      ensures timer == ArmedValue(delay) && Valid()
    {
      timer := ArmedValue(delay);
    }
  }

  /** What setDelay stores: the delay, or -1 for a negative one. */
  function ArmedValue(delay: int): (t: int)
    ensures delay >= 0 ==> t == delay
    ensures delay < 0 ==> t == -1
  {
    if delay < 0 then -1 else delay
  }

  /** One countdown step: Math.max(-1, timer - 1). */
  function DelayStep(timer: int): (t: int)
    ensures t >= -1 && (timer >= 0 ==> t == timer - 1)
  {
    if -1 >= timer - 1 then -1 else timer - 1
  }

  /** The timer after n evaluations. */
  function DelayAfter(t0: int, n: nat): int
  {
    if n == 0 then t0 else DelayStep(DelayAfter(t0, n - 1))
  }

  /** After setDelay(d) with d >= 0, evaluation n (counting from 1) is valid
      iff n == d + 1; a negative delay never fires. */
  lemma {:induction false} DelayFiresOnce(d: int, n: nat)
    requires n >= 1
    ensures d >= 0 ==> (DelayAfter(ArmedValue(d), n - 1) == 0 <==> n == d + 1)
    ensures d < 0 ==> DelayAfter(ArmedValue(d), n - 1) == -1
  {
    DelayCountsDown(ArmedValue(d), n - 1);
  }

  /** From t0 >= -1 the countdown after n steps is max(-1, t0 - n). */
  lemma {:induction false} DelayCountsDown(t0: int, n: nat)
    requires t0 >= -1
    ensures DelayAfter(t0, n) == if t0 - n >= -1 then t0 - n else -1
  {
    if n > 0 {
      DelayCountsDown(t0, n - 1);
    }
  }

  // ---------------------------------------------------------------- predicates

  /** The key test of GlobalKeyListener: with no codes, any pressed key;
      otherwise a pressed key among the codes. */
  predicate KeysMatch(keyCodes: set<int>, pressed: set<int>)
  {
    (keyCodes == {} && pressed != {}) || pressed * keyCodes != {}
  }

  class GlobalKeyListener {
    /** The codes, copied into a set at construction. */
    const keyCodes: set<int>

    /** GlobalKeyListener(Collection): copy the collection into a set. */
    constructor FromCollection(codes: seq<int>)
      ensures keyCodes == set k | k in codes
    {
      keyCodes := set k | k in codes;
    }

    /** GlobalKeyListener(int...): add each code to a fresh set. */
    constructor FromCodes(codes: seq<int>)
      ensures keyCodes == set k | k in codes
    {
      var temp: set<int> := {};
      var i := 0;
      while i < |codes|
        invariant 0 <= i <= |codes|
        invariant temp == set k | k in codes[..i]
      {
        temp := temp + {codes[i]};
        i := i + 1;
      }
      assert codes[..|codes|] == codes;
      keyCodes := temp;
    }

    function IsValid(ctx: Context): (b: bool)
      ensures b == KeysMatch(keyCodes, ctx.keyCodesPressed)
    {
      (keyCodes == {} && ctx.keyCodesPressed != {}) || ctx.keyCodesPressed * keyCodes != {}
    }
  }

  /** With codes, the test holds iff a pressed key is one of them; without,
      iff any key is pressed; nothing pressed never matches. */
  lemma KeysMatchCases(keyCodes: set<int>, pressed: set<int>, k: int)
    ensures keyCodes != {} ==> (KeysMatch(keyCodes, pressed) <==> pressed * keyCodes != {})
    ensures k in pressed && k in keyCodes ==> KeysMatch(keyCodes, pressed)
    ensures keyCodes == {} ==> (KeysMatch(keyCodes, pressed) <==> pressed != {})
    ensures pressed == {} ==> !KeysMatch(keyCodes, pressed)
  {
    if k in pressed && k in keyCodes {
      assert k in pressed * keyCodes;
    }
    if pressed == {} {
      assert pressed * keyCodes == {};
    }
  }

  class LocalKeyListener {
    const keys: GlobalKeyListener

    constructor(keys: GlobalKeyListener)
      ensures this.keys == keys
    {
      this.keys := keys;
    }

    /** isValid: the key test and then, only if it holds, whether the target's
        shape contains the relative mouse point; a missing point throws. */
    function IsValid(ctx: Context, transformedShape: IntPoint -> bool): (r: Result<bool>)
      ensures !keys.IsValid(ctx) ==> r == Ok(false)
      ensures keys.IsValid(ctx) && ctx.mouseRelative.None? ==> r == Err(NullPointer)
      ensures r == Ok(true) <==>
        KeysMatch(keys.keyCodes, ctx.keyCodesPressed) && ctx.mouseRelative.Some? && transformedShape(ctx.mouseRelative.value)
    {
      if !keys.IsValid(ctx) then Ok(false)
      else if ctx.mouseRelative.None? then Err(NullPointer)
      else Ok(transformedShape(ctx.mouseRelative.value))
    }
  }

  /** GlobalClickListener.isValid: any button bit, whatever the target and the
      mouse position. */
  function GlobalClickValid(ctx: Context): (b: bool)
    ensures b <==> ctx.mouseButtonMask != NOBUTTON
  {
    ctx.mouseButtonMask != NOBUTTON
  }

  /** Whichever bit is set, not only button 1, the listener fires; it reads
      nothing but the mask. */
  lemma GlobalClickAnyButton(ctx: Context, m: Mask, p: Option<IntPoint>)
    requires m != 0
    ensures GlobalClickValid(ctx.(mouseButtonMask := m))
    ensures GlobalClickValid(ctx.(mouseRelative := p, mouseAbsolute := p)) == GlobalClickValid(ctx)
  {
  }

  /** LocalClickListener.isValid: a button is down and the target's shape
      contains the relative mouse point; with no button the shape is not
      consulted. */
  function LocalClickValid(ctx: Context, transformedShape: IntPoint -> bool): (r: Result<bool>)
    ensures ctx.mouseButtonMask == NOBUTTON ==> r == Ok(false)
    ensures ctx.mouseButtonMask != NOBUTTON && ctx.mouseRelative.None? ==> r == Err(NullPointer)
    ensures r == Ok(true) <==>
      ctx.mouseButtonMask != NOBUTTON && ctx.mouseRelative.Some? && transformedShape(ctx.mouseRelative.value)
  {
    if ctx.mouseButtonMask == NOBUTTON then Ok(false)
    else if ctx.mouseRelative.None? then Err(NullPointer)
    else Ok(transformedShape(ctx.mouseRelative.value))
  }

  class HitTestListener {
    const clazz: ClassId
    const instance: Node?

    /** HitTestListener(clazz): class-wide mode. */
    constructor ForClass(clazz: ClassId)
      ensures this.clazz == clazz && instance == null
    {
      this.clazz, instance := clazz, null;
    }

    /** HitTestListener(clazz, instance). */
    constructor ForInstance(clazz: ClassId, instance: Node?)
      ensures this.clazz == clazz && this.instance == instance
    {
      this.clazz, this.instance := clazz, instance;
    }

    /** isValid: in class-wide mode, some instance of the class hits the
        target; in instance mode, the instance precisely hits it and the class
        is ignored. */
    function IsValid(target: Node, ctx: Context, preciseHitTest: (Node, Node) -> bool): (b: bool)
      ensures instance == null ==> (b <==> |ctx.hitTestClass(clazz)| > 0)
      ensures instance != null ==> (b <==> preciseHitTest(instance, target))
    {
      if instance == null then |ctx.hitTestClass(clazz)| > 0 else preciseHitTest(instance, target)
    }
  }

  class ParentBoundsListener {
    var validateVertical: bool
    var validateHorizontal: bool

    constructor()
      ensures validateVertical && validateHorizontal
    {
      validateVertical, validateHorizontal := true, true;
    }

    /** isValid: the target's bounding box (`box`) leaves its parent on a
        checked axis; a target without a parent never fires. */
    function IsValid(target: Node, box: Rect): (b: bool)
      reads this, target, target.parent
      ensures target.parent == null ==> !b
      ensures target.parent != null ==>
        (b <==> VerticalOut(validateVertical, box, target.parent.height)
                || HorizontalOut(validateHorizontal, box, target.parent.width))
    {
      if target.parent == null then false
      else
        var verticalInvalid := validateVertical && (box.y < 0.0 || box.y + box.height > target.parent.height);
        var horizontalInvalid := validateHorizontal && (box.x < 0.0 || box.x + box.width > target.parent.width);
        verticalInvalid || horizontalInvalid
    }

    function IsValidateHorizontal(): (b: bool)
      reads this
      ensures b == validateHorizontal
    {
      validateHorizontal
    }

    function IsValidateVertical(): (b: bool)
      reads this
      ensures b == validateVertical
    {
      validateVertical
    }

    method SetValidateHorizontal(v: bool)
      modifies this`validateHorizontal
      ensures validateHorizontal == v
    {
      validateHorizontal := v;
    }

    method SetValidateVertical(v: bool)
      modifies this`validateVertical
      ensures validateVertical == v
    {
      validateVertical := v;
    }
  }

  predicate VerticalOut(check: bool, box: Rect, parentHeight: real)
  {
    check && (box.y < 0.0 || box.y + box.height > parentHeight)
  }

  predicate HorizontalOut(check: bool, box: Rect, parentWidth: real)
  {
    check && (box.x < 0.0 || box.x + box.width > parentWidth)
  }

  /** A box inside the parent, even one touching its edges, is no violation;
      with both axes unchecked nothing is. */
  lemma BoundsEdgesAllowed(box: Rect, pw: real, ph: real, v: bool, h: bool)
    ensures 0.0 <= box.x && box.x + box.width <= pw && 0.0 <= box.y && box.y + box.height <= ph ==>
      !VerticalOut(v, box, ph) && !HorizontalOut(h, box, pw)
    ensures !VerticalOut(false, box, ph) && !HorizontalOut(false, box, pw)
  {
  }
}
