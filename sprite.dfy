/** jgame.GSprite (an object drawn from one image or an animation of images)
    and jgame.GContainer (an object with an optional background sprite to
    which it delegates its animation and links its size). Of GObject only
    the size is kept, as the `width` and `height` fields of each class. */
module Sprite {
  import opened Common

  /** An image as the sprite sees it: its size as reported to an image
      observer, -1 while not yet known. */
  datatype Image = Image(width: int, height: int)

  /** The bounding-shape primitive of a sprite; a custom shape primitive is
      identified by an opaque shape id. */
  datatype Primitive = Rectangle | Ellipse | Empty | ShapePrimitive(shape: nat)

  // ---------------------------------------------------------------------
  // Frame arithmetic
  // ---------------------------------------------------------------------

  /** The frame after nextFrame on a sprite of `n` images: it stays put when
      there is at most one image or the animation is paused, and otherwise
      moves forward by one modulo n (Java's remainder). */
  function NextFrameIndex(frame: int, n: nat, playing: bool): (f: int)
    ensures n <= 1 || !playing ==> f == frame
    ensures n > 1 && playing && 0 <= frame < n ==> 0 <= f < n
    ensures n > 1 && playing && 0 <= frame < n - 1 ==> f == frame + 1
    ensures n > 1 && playing && frame == n - 1 ==> f == 0
  {
    if n <= 1 || !playing then frame else JavaRem(frame + 1, n)
  }

  /** previousFrame as written: its guard has an empty body, so it always
      decrements and takes Java's remainder, which is negative for a
      negative dividend and throws ArithmeticException with no images. The
      `playing` flag is not consulted. */
  function PreviousFrameAsWritten(frame: int, n: nat, playing: bool): (r: Result<int>)
    ensures r.Err? <==> n == 0
    ensures r.Ok? ==> -(n as int) < r.value < n
  {
    if n == 0 then Err(Arithmetic) else Ok(JavaRem(frame - 1, n))
  }

  /** The evident intent of previousFrame: the mirror of nextFrame, stepping
      back by one modulo n and doing nothing when there is nothing to step or
      the animation is paused. */
  function PreviousFrameIndex(frame: int, n: nat, playing: bool): (f: int)
    ensures n <= 1 || !playing ==> f == frame
    ensures n > 1 && playing && 0 <= frame < n ==> 0 <= f < n
    ensures n > 1 && playing && 0 < frame < n ==> f == frame - 1
    ensures n > 1 && playing && frame == 0 ==> f == n - 1
  {
    if n <= 1 || !playing then frame else (frame - 1 + n) % n
  }

  /** The discrepancy: from frame 0 of a two-image sprite previousFrame leaves
      frame -1, which the next paint would index; with no images it divides
      by zero; and it moves a paused animation. */
  lemma PreviousFrameAsWrittenCounterexamples()
    ensures PreviousFrameAsWritten(0, 2, true) == Ok(-1)
    ensures PreviousFrameAsWritten(5, 0, true) == Err(Arithmetic)
    ensures PreviousFrameAsWritten(1, 3, false) == Ok(0)
    ensures PreviousFrameIndex(0, 2, true) == 1
    ensures PreviousFrameIndex(5, 0, true) == 5
    ensures PreviousFrameIndex(1, 3, false) == 1
  {
    assert JavaRem(-1, 2) == -1;
    assert JavaRem(0, 3) == 0;
  }

  /** Stepping forward then back (or back then forward) returns to the same
      frame. */
  lemma NextPreviousInverse(frame: int, n: nat, playing: bool)
    requires 0 <= frame < n
    ensures PreviousFrameIndex(NextFrameIndex(frame, n, playing), n, playing) == frame
    ensures NextFrameIndex(PreviousFrameIndex(frame, n, playing), n, playing) == frame
  {
  }

  /** nextFrame applied k times. */
  function StepForward(frame: int, n: nat, playing: bool, k: nat): int
  {
    if k == 0 then frame else NextFrameIndex(StepForward(frame, n, playing, k - 1), n, playing)
  }

  /** A playing animation of n > 1 frames shows frame (f + k) mod n after k
      steps, so it cycles back to its start after n steps. */
  lemma {:induction false} StepForwardCycles(frame: int, n: nat, k: nat)
    requires 1 < n && 0 <= frame < n
    ensures StepForward(frame, n, true, k) == (frame + k) % n
  {
    if k > 0 {
      var before := StepForward(frame, n, true, k - 1);
      StepForwardCycles(frame, n, k - 1);
      assert before == (frame + k - 1) % n;
      ModSuccessor(frame + k - 1, n);
      assert StepForward(frame, n, true, k) == NextFrameIndex(before, n, true);
    }
  }

  /** Adding one to a number adds one to its remainder, wrapping to 0. */
  lemma ModSuccessor(a: nat, n: nat)
    requires n > 0
    ensures a % n < n - 1 ==> (a + 1) % n == a % n + 1
    ensures a % n == n - 1 ==> (a + 1) % n == 0
  {
    var q, r := a / n, a % n;
    assert a == q * n + r;
    if r < n - 1 {
      ModUnique(a + 1, q, r + 1, n);
    } else {
      assert a + 1 == (q + 1) * n;
      ModUnique(a + 1, q + 1, 0, n);
    }
  }

  /** The remainder is the unique r in [0, n) with x == q*n + r. */
  lemma ModUnique(x: int, q: int, r: int, n: nat)
    requires n > 0 && 0 <= r < n && x == q * n + r
    ensures x % n == r
  {
    var q', r' := x / n, x % n;
    var d := q' - q;
    assert d * n == r - r' by {
      assert q' * n + r' == q * n + r;
      assert d * n == q' * n - q * n;
    }
    if d > 0 {
      MulAtLeast(d, n);
    } else if d < 0 {
      MulAtLeast(-d, n);
    }
  }

  lemma MulAtLeast(d: nat, n: nat)
    requires d >= 1
    ensures d * n >= n
  {
    assert d * n == (d - 1) * n + n;
    assert (d - 1) * n >= 0;
  }

  // ---------------------------------------------------------------------
  // GSprite
  // ---------------------------------------------------------------------

  class GSprite {
    /** The size kept by GObject. */
    var width: real
    var height: real
    /** The animation frames; an entry may be null (None) and is then not
        drawn. */
    var images: seq<Option<Image>>
    var primitive: Primitive
    var nineSliceCenter: Option<Rect>
    var frame: int
    var playing: bool

    /** The frame index can always be used to index a non-empty image list,
        which is what paint does. */
    ghost predicate Valid()
      reads this
    {
      0 <= frame && (images != [] ==> frame < |images|)
    }

    /** GSprite(): no images, rectangle primitive, frame 0, playing. */
    constructor()
      ensures Valid()
      ensures width == 0.0 && height == 0.0 && images == [] && frame == 0
      ensures primitive == Rectangle && nineSliceCenter == None && playing
    {
      width, height := 0.0, 0.0;
      images, primitive, nineSliceCenter := [], Rectangle, None;
      frame, playing := 0, true;
    }

    /** The copy constructor: a new image list with the same images and a
        copy of the nine-slice rectangle, the same primitive, frame and
        playing flag; the GObject part (the size) is not copied. */
    constructor Copy(other: GSprite)
      requires other.Valid()
      ensures Valid()
      ensures images == other.images && nineSliceCenter == other.nineSliceCenter
      ensures primitive == other.primitive && frame == other.frame && playing == other.playing
      ensures width == 0.0 && height == 0.0
    {
      width, height := 0.0, 0.0;
      images := other.images;
      nineSliceCenter := other.nineSliceCenter;
      primitive := other.primitive;
      frame := other.frame;
      playing := other.playing;
    }

    method NextFrame()
      requires Valid()
      modifies this`frame
      ensures Valid()
      ensures frame == NextFrameIndex(old(frame), |images|, playing)
    {
      if |images| <= 1 || !playing {
        return;
      }
      frame := frame + 1;
      frame := JavaRem(frame, |images|);
    }

    /** previousFrame, corrected: see PreviousFrameAsWritten for the code as
        written. */
    method PreviousFrame()
      requires Valid()
      modifies this`frame
      ensures Valid()
      ensures frame == PreviousFrameIndex(old(frame), |images|, playing)
    {
      if |images| <= 1 || !playing {
        return;
      }
      frame := (frame - 1 + |images|) % |images|;
    }

    /** setFrameNumber: an index outside the image list throws
        IndexOutOfBoundsException and leaves the frame alone. */
    method SetFrameNumber(frameNumber: int) returns (r: Outcome)
      requires Valid()
      modifies this`frame
      ensures Valid()
      ensures r == Done <==> 0 <= frameNumber < |images|
      ensures r != Done ==> r == Threw(IndexOutOfBounds) && frame == old(frame)
      ensures r == Done ==> frame == frameNumber
    {
      if frameNumber >= |images| {
        return Threw(IndexOutOfBounds);
      }
      if frameNumber < 0 {
        return Threw(IndexOutOfBounds);
      }
      frame := frameNumber;
      r := Done;
    }

    /** setImage: the list becomes just this image and the frame 0; each
        dimension of the sprite is taken from the image only if the image
        reports a positive one and the sprite's is not yet positive. The list
        is cleared before the image is read, so a null image throws
        NullPointerException with the list already empty. */
    method SetImage(image: Option<Image>) returns (r: Outcome)
      requires Valid()
      modifies this`images, this`width, this`height, this`frame
      ensures Valid()
      ensures image.None? ==>
                r == Threw(NullPointer) && images == [] && frame == old(frame)
                && width == old(width) && height == old(height)
      ensures image.Some? ==>
                && r == Done && images == [image] && frame == 0
                && width == (if image.value.width > 0 && old(width) <= 0.0 then image.value.width as real else old(width))
                && height == (if image.value.height > 0 && old(height) <= 0.0 then image.value.height as real else old(height))
    {
      images := [];
      if image.None? {
        return Threw(NullPointer);
      }
      var w := image.value.width;
      var h := image.value.height;
      if w > 0 && width <= 0.0 {
        width := w as real;
      }
      if h > 0 && height <= 0.0 {
        height := h as real;
      }
      images := images + [image];
      frame := 0;
      r := Done;
    }

    /** setImages: a non-empty sequence first goes through setImage with its
        first image (sizing the sprite and resetting the frame), then the
        list becomes the whole sequence. An empty sequence empties the list
        and keeps the frame. */
    method SetImages(sequence: seq<Option<Image>>) returns (r: Outcome)
      requires Valid()
      modifies this`images, this`width, this`height, this`frame
      ensures Valid()
      ensures sequence == [] ==> r == Done && images == [] && frame == old(frame)
                                 && width == old(width) && height == old(height)
      ensures sequence != [] && sequence[0].None? ==>
                r == Threw(NullPointer) && images == [] && frame == old(frame)
                && width == old(width) && height == old(height)
      ensures sequence != [] && sequence[0].Some? ==>
                && r == Done && images == sequence && frame == 0
                && var first := sequence[0].value;
                   && width == (if first.width > 0 && old(width) <= 0.0 then first.width as real else old(width))
                   && height == (if first.height > 0 && old(height) <= 0.0 then first.height as real else old(height))
    {
      if sequence != [] {
        r := SetImage(sequence[0]);
        if r.Threw? {
          return;
        }
      }
      images := [];
      images := images + sequence;
      r := Done;
    }

    method SetPlaying(p: bool)
      modifies this`playing
      ensures playing == p
    {
      playing := p;
    }

    /** setPrimitive: null is rejected with IllegalArgumentException. */
    method SetPrimitive(p: Option<Primitive>) returns (r: Outcome)
      modifies this`primitive
      ensures p.None? ==> r == Threw(IllegalArgument) && primitive == old(primitive)
      ensures p.Some? ==> r == Done && primitive == p.value
    {
      if p.None? {
        return Threw(IllegalArgument);
      }
      primitive := p.value;
      r := Done;
    }

    method SetWidth(w: real)
      modifies this`width
      ensures width == w
    {
      width := w;
    }

    method SetHeight(h: real)
      modifies this`height
      ensures height == h
    {
      height := h;
    }
  }

  // ---------------------------------------------------------------------
  // GContainer
  // ---------------------------------------------------------------------

  class GContainer {
    var width: real
    var height: real
    var backgroundSprite: GSprite?

    constructor()
      ensures width == 0.0 && height == 0.0 && backgroundSprite == null
    {
      width, height, backgroundSprite := 0.0, 0.0, null;
    }

    /** A background sprite, once set, has the container's size. */
    ghost predicate SizeLinked()
      reads this, backgroundSprite
    {
      backgroundSprite != null ==>
        backgroundSprite.width == width && backgroundSprite.height == height
    }

    /** setWidth: the container's width, copied to the background sprite. */
    method SetWidth(w: real)
      modifies this`width, if backgroundSprite != null then {backgroundSprite} else {}
      ensures width == w
      ensures backgroundSprite != null ==> backgroundSprite.width == w
                                           && backgroundSprite.height == old(backgroundSprite.height)
      ensures old(SizeLinked()) && height == old(height) ==> SizeLinked()
    {
      width := w;
      if backgroundSprite != null {
        backgroundSprite.SetWidth(width);
      }
    }

    /** setHeight: the container's height, copied to the background sprite. */
    method SetHeight(h: real)
      modifies this`height, if backgroundSprite != null then {backgroundSprite} else {}
      ensures height == h
      ensures backgroundSprite != null ==> backgroundSprite.height == h
                                           && backgroundSprite.width == old(backgroundSprite.width)
      ensures old(SizeLinked()) ==> SizeLinked()
    {
      height := h;
      if backgroundSprite != null {
        backgroundSprite.SetHeight(height);
      }
    }

    /** setBackgroundSprite: the container takes the sprite's size (through
        its own setSize, which hands the same size back to the sprite). */
    method SetBackgroundSprite(s: GSprite?)
      modifies this`backgroundSprite, this`width, this`height, if s != null then {s} else {}
      ensures backgroundSprite == s
      ensures s == null ==> width == old(width) && height == old(height)
      ensures s != null ==> width == old(s.width) && height == old(s.height)
                            && s.width == old(s.width) && s.height == old(s.height)
      ensures SizeLinked()
    {
      backgroundSprite := s;
      if s != null {
        var w, h := s.width, s.height;
        SetWidth(w);
        SetHeight(h);
      }
    }

    /** isPlaying: true only with a playing background sprite. */
    function IsPlaying(): (b: bool)
      reads this, backgroundSprite
      ensures b <==> backgroundSprite != null && backgroundSprite.playing
    {
      backgroundSprite != null && backgroundSprite.playing
    }

    method NextFrame()
      requires backgroundSprite != null ==> backgroundSprite.Valid()
      modifies if backgroundSprite != null then {backgroundSprite} else {}
      ensures backgroundSprite != null ==>
                backgroundSprite.Valid()
                && backgroundSprite.frame == NextFrameIndex(old(backgroundSprite.frame), |backgroundSprite.images|, backgroundSprite.playing)
    {
      if backgroundSprite != null {
        backgroundSprite.NextFrame();
      }
    }

    method PreviousFrame()
      requires backgroundSprite != null ==> backgroundSprite.Valid()
      modifies if backgroundSprite != null then {backgroundSprite} else {}
      ensures backgroundSprite != null ==>
                backgroundSprite.Valid()
                && backgroundSprite.frame == PreviousFrameIndex(old(backgroundSprite.frame), |backgroundSprite.images|, backgroundSprite.playing)
    {
      if backgroundSprite != null {
        backgroundSprite.PreviousFrame();
      }
    }

    /** setFrameNumber: delegated; without a background sprite nothing
        happens and nothing is thrown. */
    method SetFrameNumber(frameNumber: int) returns (r: Outcome)
      requires backgroundSprite != null ==> backgroundSprite.Valid()
      modifies if backgroundSprite != null then {backgroundSprite} else {}
      ensures backgroundSprite == null ==> r == Done
      ensures backgroundSprite != null ==>
                && backgroundSprite.Valid()
                && (r == Done <==> 0 <= frameNumber < |backgroundSprite.images|)
                && backgroundSprite.frame == (if r == Done then frameNumber else old(backgroundSprite.frame))
    {
      r := Done;
      if backgroundSprite != null {
        r := backgroundSprite.SetFrameNumber(frameNumber);
      }
    }

    method SetPlaying(p: bool)
      modifies if backgroundSprite != null then {backgroundSprite} else {}
      ensures backgroundSprite != null ==> backgroundSprite.playing == p
      ensures IsPlaying() <==> backgroundSprite != null && p
    {
      if backgroundSprite != null {
        backgroundSprite.SetPlaying(p);
      }
    }
  }
}
