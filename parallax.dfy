/** jgame.GParallax: a container of scrolling layers. Each layer (the inner
    class GTiledSprite) repeats one sprite in a 3 x 3 grid and is moved by a
    ScrollController that wraps its position so the middle tile always
    covers the parent. */
module Parallax {
  import opened Common
  import opened Scene
  import Sprite
  import Controllers

  /** GTiledSprite.SIDE_LENGTH: the grid is SIDE x SIDE tiles. */
  const SIDE: nat := 3

  /** Class ids of the nodes this module creates, for class-wide queries. */
  const TILED_SPRITE_CLASS: ClassId := 101
  const SPRITE_CLASS: ClassId := 102
  const PARALLAX_CLASS: ClassId := 103

  // ---------------------------------------------------------------------
  // Tile layout
  // ---------------------------------------------------------------------

  /** The grid cell (column, row) of tile i: tiles fill the grid column by
      column, and the cell determines the tile. */
  function TileCell(i: nat): (c: (nat, nat))
    requires i < SIDE * SIDE
    ensures c.0 < SIDE && c.1 < SIDE && i == SIDE * c.0 + c.1
  {
    (i / SIDE, i % SIDE)
  }

  /** Every cell of the grid holds a tile: the one in column c, row r is
      tile 3c + r (and by TileCell's contract it is the only one). */
  lemma TileCellOfGridPosition(c: nat, r: nat)
    requires c < SIDE && r < SIDE
    ensures SIDE * c + r < SIDE * SIDE && TileCell(SIDE * c + r) == (c, r)
  {
    var t := TileCell(3 * c + r);
    assert 3 * c + r == 3 * t.0 + t.1;
  }

  /** The offset of tile i inside its layer, for a sprite of size sw x sh. */
  function TileOffset(i: nat, sw: real, sh: real): (v: Vec)
    requires i < SIDE * SIDE
    ensures v == Vec(TileCell(i).0 as real * sw, TileCell(i).1 as real * sh)
  {
    Vec((i / SIDE) as real * sw, (i % SIDE) as real * sh)
  }

  // ---------------------------------------------------------------------
  // Scroll wrap
  // ---------------------------------------------------------------------

  /** One coordinate after ScrollController's wrap, for a layer of extent
      `size`: a coordinate inside [-size/3, 0] is kept; otherwise it becomes
      -size/3 plus its (Java, sign-of-dividend) remainder by size/3, lifted by
      one tile when that falls below -size/3. None when the remainder is by
      zero, where Java produces NaN. */
  function Wrap(t: real, size: real): (r: Option<real>)
    ensures !(t > 0.0 || t < -(size / 3.0)) ==> r == Some(t)
    ensures r.None? <==> (t > 0.0 || t < -(size / 3.0)) && size == 0.0
  {
    var tile := size / 3.0;
    var min := -tile;
    if !(t > 0.0 || t < min) then Some(t)
    else if tile == 0.0 then None
    else
      var x := min + JavaRemReal(t, tile);
      Some(if x < min then x + tile else x)
  }

  /** For a layer of positive extent the wrapped coordinate always lies in
      [-size/3, 0], so the layer, three tiles wide and starting at most one
      tile to the left of its parent, still covers the parent's first tile. */
  lemma WrapRange(t: real, size: real)
    requires size > 0.0
    ensures Wrap(t, size).Some?
    ensures -(size / 3.0) <= Wrap(t, size).value <= 0.0
  {
    var tile := size / 3.0;
    if t > 0.0 || t < -tile {
      var rem := JavaRemReal(t, tile);
      assert -tile < rem < tile;
    }
  }

  /** The wrap moves the layer by a whole number of tiles, so what it shows
      is the same picture. */
  lemma WrapShiftsByTiles(t: real, size: real)
    requires size != 0.0
    ensures Wrap(t, size).Some?
    ensures var shift := (Wrap(t, size).value - t) / (size / 3.0);
            shift == shift.Floor as real
  {
    var tile := size / 3.0;
    var w := Wrap(t, size).value;
    if t > 0.0 || t < -tile {
      var k := Trunc(t / tile);
      var rem := JavaRemReal(t, tile);
      JavaRemRealQuotient(t, tile);
      if -tile + rem < -tile {
        assert w == t + (-k) as real * tile;
        ShiftIsWhole(t, w, tile, -k);
      } else {
        assert w == t + (-1 - k) as real * tile;
        ShiftIsWhole(t, w, tile, -1 - k);
      }
    } else {
      ShiftIsWhole(t, t, tile, 0);
    }
  }

  lemma ShiftIsWhole(t: real, w: real, tile: real, k: int)
    requires tile != 0.0 && w == t + k as real * tile
    ensures (w - t) / tile == ((w - t) / tile).Floor as real
  {
    assert (w - t) / tile == k as real;
  }

  /** Wrapping an already wrapped coordinate changes nothing. */
  lemma WrapIdempotent(t: real, size: real)
    requires size > 0.0
    ensures Wrap(Wrap(t, size).value, size) == Wrap(t, size)
  {
    WrapRange(t, size);
  }

  /** (x, y) and r are what wrapping (x0, y0) in a width-by-height layer
      gives: each coordinate wrapped, or left as it was where the wrap is
      NaN, in which case the outcome is an ArithmeticException. */
  predicate WrapStep(x0: real, y0: real, width: real, height: real, x: real, y: real, r: Outcome)
  {
    var wx, wy := Wrap(x0, width), Wrap(y0, height);
    && x == (if wx.Some? then wx.value else x0)
    && y == (if wy.Some? then wy.value else y0)
    && (r == Done <==> wx.Some? && wy.Some?)
    && (r != Done ==> r == Threw(Arithmetic))
  }

  /** ScrollController: a ConstantMovementController (the `movement` part)
      whose every step is followed by the wrap on both axes. */
  class ScrollController {
    const movement: Controllers.ConstantMovementController

    constructor(velocityX: real, velocityY: real)
      ensures fresh(movement)
      ensures movement.velocityX == velocityX && movement.velocityY == velocityY
      ensures movement.damping == 1.0
    {
      movement := new Controllers.ConstantMovementController(velocityX, velocityY);
    }

    /** controlObject: move by the velocity, then wrap x by the target's
        width and y by its height. A coordinate whose wrap would be NaN is
        left at its moved value and the result is Threw(Arithmetic). */
    method ControlObject(target: Node) returns (r: Outcome)
      modifies target`x, target`y, movement`velocityX, movement`velocityY
      ensures WrapStep(old(target.x) + old(movement.velocityX), old(target.y) + old(movement.velocityY),
                       target.width, target.height, target.x, target.y, r)
      ensures Controllers.Damped(old(movement.velocityX), movement.damping, movement.velocityX)
      ensures Controllers.Damped(old(movement.velocityY), movement.damping, movement.velocityY)
    {
      movement.ControlObject(target);
      r := WrapPosition(target, old(target.x) + old(movement.velocityX), old(target.y) + old(movement.velocityY));
    }

    /** The wrapping half of controlObject, on the moved position. */
    static method WrapPosition(target: Node, ghost x0: real, ghost y0: real) returns (r: Outcome)
      requires target.x == x0 && target.y == y0
      modifies target`x, target`y
      ensures WrapStep(x0, y0, target.width, target.height, target.x, target.y, r)
    {
      r := Done;
      var wx := Wrap(target.x, target.width);
      if wx.Some? {
        target.SetX(wx.value);
      } else {
        r := Threw(Arithmetic);
      }
      var wy := Wrap(target.y, target.height);
      if wy.Some? {
        target.SetY(wy.value);
      } else {
        r := Threw(Arithmetic);
      }
    }
  }

  // ---------------------------------------------------------------------
  // GTiledSprite
  // ---------------------------------------------------------------------

  /** One tile of initializeForSprite, new GSprite(s): a fresh
      top-left-anchored node at TileOffset(i), with a fresh copy of the
      sprite's picture state (images, frame, primitive, nine-slice centre,
      playing flag) as its GSprite part. */
  method NewTile(i: nat, s: Sprite.GSprite) returns (si: Node, pic: Sprite.GSprite)
    requires i < SIDE * SIDE && s.Valid()
    ensures fresh(si) && si.parent == null && si.classId == SPRITE_CLASS
    ensures si.anchorWeightX == 0.0 && si.anchorWeightY == 0.0
    ensures Vec(si.x, si.y) == TileOffset(i, s.width, s.height)
    ensures fresh(pic) && CopyOf(pic, s)
  {
    var sw, sh := s.width, s.height;
    pic := new Sprite.GSprite.Copy(s);
    si := new Node(SPRITE_CLASS);
    si.SetAnchorTopLeft();
    si.SetX((i / SIDE) as real * sw);
    si.SetY((i % SIDE) as real * sh);
  }

  /** pic shows what s shows: the state the GSprite copy constructor
      copies. */
  ghost predicate CopyOf(pic: Sprite.GSprite, s: Sprite.GSprite)
    reads pic, s
  {
    && pic.Valid()
    && pic.images == s.images && pic.frame == s.frame && pic.playing == s.playing
    && pic.primitive == s.primitive && pic.nineSliceCenter == s.nineSliceCenter
  }

  class TiledSprite {
    /** The layer's own GObject. */
    const node: Node
    /** The tile sprites, as scene nodes; null until initializeForSprite
        fills them. */
    var sprites: seq<Node?>
    /** The GSprite part of each tile sprite: its copy of the picture. */
    var pictures: seq<Sprite.GSprite?>
    var scroller: ScrollController?

    constructor()
      ensures fresh(node) && node.classId == TILED_SPRITE_CLASS
      ensures node.children == [] && node.controllers == [] && node.parent == null
      ensures sprites == seq(SIDE * SIDE, _ => null) && scroller == null
      ensures pictures == seq(SIDE * SIDE, _ => null)
    {
      node := new Node(TILED_SPRITE_CLASS);
      sprites := seq(SIDE * SIDE, _ => null);
      pictures := seq(SIDE * SIDE, _ => null);
      scroller := null;
    }

    /** initializeForSprite: drop the old children, become three times the
        sprite's size, sit one sprite up and to the left, and add nine fresh
        top-left-anchored tiles, tile i at TileOffset(i), each a fresh copy
        of the sprite's picture. */
    method InitializeForSprite(s: Sprite.GSprite)
      requires s.Valid()
      modifies node`children, node`width, node`height, node`x, node`y, this`sprites, this`pictures
      ensures node.width == 3.0 * s.width && node.height == 3.0 * s.height
      ensures node.x == -s.width && node.y == -s.height
      ensures |sprites| == SIDE * SIDE && |node.children| == SIDE * SIDE
      ensures forall i :: 0 <= i < SIDE * SIDE ==> sprites[i] == node.children[i]
      ensures forall i :: 0 <= i < SIDE * SIDE ==>
                && fresh(node.children[i]) && node.children[i].parent == node
                && node.children[i].classId == SPRITE_CLASS
                && node.children[i].anchorWeightX == 0.0 && node.children[i].anchorWeightY == 0.0
                && Vec(node.children[i].x, node.children[i].y) == TileOffset(i, s.width, s.height)
      ensures forall i, j :: 0 <= i < j < SIDE * SIDE ==> node.children[i] != node.children[j]
      ensures |pictures| == SIDE * SIDE
      ensures forall i :: 0 <= i < SIDE * SIDE ==>
                pictures[i] != null && fresh(pictures[i]) && CopyOf(pictures[i], s)
      ensures forall i, j :: 0 <= i < j < SIDE * SIDE ==> pictures[i] != pictures[j]
    {
      var sw, sh := s.width, s.height;
      node.RemoveAllChildren();
      node.SetSize(sw * 3.0, sh * 3.0);
      node.SetLocation(Vec(-sw, -sh));
      var tiles: seq<Node> := [];
      var pics: seq<Sprite.GSprite> := [];
      for i := 0 to SIDE * SIDE
        invariant |tiles| == i && node.children == tiles
        invariant node.width == 3.0 * sw && node.height == 3.0 * sh
        invariant node.x == -sw && node.y == -sh
        invariant forall j :: 0 <= j < i ==>
                    && fresh(tiles[j]) && tiles[j] != node && tiles[j].parent == node
                    && tiles[j].classId == SPRITE_CLASS
                    && tiles[j].anchorWeightX == 0.0 && tiles[j].anchorWeightY == 0.0
                    && Vec(tiles[j].x, tiles[j].y) == TileOffset(j, sw, sh)
        invariant forall j, k :: 0 <= j < k < i ==> tiles[j] != tiles[k]
        invariant |pics| == i
        invariant forall j :: 0 <= j < i ==> fresh(pics[j]) && CopyOf(pics[j], s)
        invariant forall j, k :: 0 <= j < k < i ==> pics[j] != pics[k]
      {
        var si, pic := NewTile(i, s);
        assert forall j :: 0 <= j < i ==> tiles[j] != si && pics[j] != pic;
        node.AddChild(si);
        tiles := tiles + [si];
        pics := pics + [pic];
      }
      sprites := tiles;
      pictures := pics;
    }

    /** scrollAt: the previous scroller, if any, is removed from the layer's
        controllers and a fresh one with the given velocity is appended. */
    method ScrollAt(vx: real, vy: real)
      modifies this`scroller, node`controllers
      ensures scroller != null && fresh(scroller) && fresh(scroller.movement)
      ensures scroller.movement.velocityX == vx && scroller.movement.velocityY == vy
      ensures node.controllers ==
                (if old(scroller) != null then RemoveFirst<object>(old(node.controllers), old(scroller))
                 else old(node.controllers)) + [scroller]
      ensures multiset(node.controllers)[scroller] == 1
      ensures old(scroller) != null && multiset(old(node.controllers))[old(scroller)] == 1 ==>
                old(scroller) !in node.controllers
    {
      var prev, cs := scroller, node.controllers;
      if prev != null {
        node.RemoveController(prev);
      }
      var next := new ScrollController(vx, vy);
      scroller := next;
      node.AddController(next);
      ReplaceOnce(cs, prev, next);
    }
  }

  /** Removing the previous controller (if any) and appending a new one
      leaves the new one exactly once, and the previous one, if it was there
      once, not at all. */
  lemma ReplaceOnce(cs: seq<object>, prev: ScrollController?, next: object)
    requires next !in cs && next != prev
    ensures var kept := if prev != null then RemoveFirst<object>(cs, prev) else cs;
            && multiset(kept + [next])[next] == 1
            && (prev != null && multiset(cs)[prev] == 1 ==> prev !in kept + [next])
  {
    var kept := if prev != null then RemoveFirst<object>(cs, prev) else cs;
    assert multiset(kept + [next]) == multiset(kept) + multiset{next};
  }

  // ---------------------------------------------------------------------
  // GParallax
  // ---------------------------------------------------------------------

  class GParallax {
    /** The parallax container's own GObject. */
    const node: Node
    const layers: seq<TiledSprite>

    /** The layers' nodes are distinct from each other and from the
        container's. */
    ghost predicate Valid()
    {
      && (forall i :: 0 <= i < |layers| ==> layers[i].node != node)
      && (forall i, j :: 0 <= i < j < |layers| ==> layers[i].node != layers[j].node)
    }

    /** GParallax(layerCount): layerCount fresh layers, each anchored at its
        top left and added, in order, as a child. */
    constructor(layerCount: nat)
      ensures Valid() && fresh(node) && |layers| == layerCount
      ensures |node.children| == layerCount
      ensures forall i :: 0 <= i < layerCount ==>
                && fresh(layers[i]) && fresh(layers[i].node)
                && node.children[i] == layers[i].node && layers[i].node.parent == node
                && layers[i].node.anchorWeightX == 0.0 && layers[i].node.anchorWeightY == 0.0
    {
      var n := new Node(PARALLAX_CLASS);
      var ls: seq<TiledSprite> := [];
      for i := 0 to layerCount
        invariant |ls| == i && |n.children| == i
        invariant forall j :: 0 <= j < i ==>
                    && fresh(ls[j]) && fresh(ls[j].node) && ls[j].node != n
                    && n.children[j] == ls[j].node && ls[j].node.parent == n
                    && ls[j].node.anchorWeightX == 0.0 && ls[j].node.anchorWeightY == 0.0
        invariant forall j, k :: 0 <= j < k < i ==> ls[j].node != ls[k].node
      {
        var layer := new TiledSprite();
        layer.node.SetAnchorTopLeft();
        n.AddChild(layer.node);
        ls := ls + [layer];
      }
      node := n;
      layers := ls;
    }

    ghost function LayerNodes(): set<object>
    {
      set i | 0 <= i < |layers| :: layers[i].node
    }

    /** setWidth: the container's width, then every layer's. */
    method SetWidth(w: real)
      requires Valid()
      modifies node, LayerNodes()
      ensures node.width == w && node.height == old(node.height)
      ensures forall i :: 0 <= i < |layers| ==>
                layers[i].node.width == w && layers[i].node.height == old(layers[i].node.height)
                && layers[i].node.x == old(layers[i].node.x) && layers[i].node.y == old(layers[i].node.y)
    {
      node.SetWidth(w);
      for i := 0 to |layers|
        invariant node.width == w && node.height == old(node.height)
        invariant forall j :: 0 <= j < i ==> layers[j].node.width == w
        invariant forall j :: 0 <= j < |layers| ==>
                    layers[j].node.height == old(layers[j].node.height)
                    && layers[j].node.x == old(layers[j].node.x) && layers[j].node.y == old(layers[j].node.y)
      {
        layers[i].node.SetWidth(w);
      }
    }

    /** setHeight: the container's height, then every layer's. */
    method SetHeight(h: real)
      requires Valid()
      modifies node, LayerNodes()
      ensures node.height == h && node.width == old(node.width)
      ensures forall i :: 0 <= i < |layers| ==>
                layers[i].node.height == h && layers[i].node.width == old(layers[i].node.width)
                && layers[i].node.x == old(layers[i].node.x) && layers[i].node.y == old(layers[i].node.y)
    {
      node.SetHeight(h);
      for i := 0 to |layers|
        invariant node.height == h && node.width == old(node.width)
        invariant forall j :: 0 <= j < i ==> layers[j].node.height == h
        invariant forall j :: 0 <= j < |layers| ==>
                    layers[j].node.width == old(layers[j].node.width)
                    && layers[j].node.x == old(layers[j].node.x) && layers[j].node.y == old(layers[j].node.y)
      {
        layers[i].node.SetHeight(h);
      }
    }

    /** setLayerSprite: an index outside the layers throws
        ArrayIndexOutOfBoundsException. */
    method SetLayerSprite(index: int, s: Sprite.GSprite) returns (r: Outcome)
      requires s.Valid()
      modifies if 0 <= index < |layers| then {layers[index], layers[index].node} else {}
      ensures r == Done <==> 0 <= index < |layers|
      ensures r != Done ==> r == Threw(IndexOutOfBounds)
      ensures r == Done ==>
                var l := layers[index];
                && l.node.width == 3.0 * s.width && l.node.height == 3.0 * s.height
                && l.node.x == -s.width && l.node.y == -s.height
                && |l.sprites| == SIDE * SIDE && |l.node.children| == SIDE * SIDE
                && (forall i :: 0 <= i < SIDE * SIDE ==>
                      && l.sprites[i] == l.node.children[i]
                      && fresh(l.node.children[i]) && l.node.children[i].parent == l.node
                      && l.node.children[i].classId == SPRITE_CLASS
                      && l.node.children[i].anchorWeightX == 0.0 && l.node.children[i].anchorWeightY == 0.0
                      && Vec(l.node.children[i].x, l.node.children[i].y) == TileOffset(i, s.width, s.height))
                && (forall i, j :: 0 <= i < j < SIDE * SIDE ==> l.node.children[i] != l.node.children[j])
                && |l.pictures| == SIDE * SIDE
                && (forall i :: 0 <= i < SIDE * SIDE ==>
                      l.pictures[i] != null && fresh(l.pictures[i]) && CopyOf(l.pictures[i], s))
                && (forall i, j :: 0 <= i < j < SIDE * SIDE ==> l.pictures[i] != l.pictures[j])
    {
      if !(0 <= index < |layers|) {
        return Threw(IndexOutOfBounds);
      }
      layers[index].InitializeForSprite(s);
      r := Done;
    }

    /** scrollLayerAt: an index outside the layers throws
        ArrayIndexOutOfBoundsException. */
    method ScrollLayerAt(index: int, vx: real, vy: real) returns (r: Outcome)
      modifies if 0 <= index < |layers| then {layers[index], layers[index].node} else {}
      ensures r == Done <==> 0 <= index < |layers|
      ensures r != Done ==> r == Threw(IndexOutOfBounds)
      ensures r == Done ==>
                && layers[index].scroller != null
                && layers[index].scroller.movement.velocityX == vx
                && layers[index].scroller.movement.velocityY == vy
                && layers[index].scroller in layers[index].node.controllers
    {
      if !(0 <= index < |layers|) {
        return Threw(IndexOutOfBounds);
      }
      layers[index].ScrollAt(vx, vy);
      r := Done;
    }
  }
}
