/** Pixel collision for the game client (public/game.js, `canWalk`): an
    offscreen copy of the mask image, in which dark pixels are walkable
    ground. The canvas and its pixel-reading API are replaced by a grid of
    RGBA pixels and the `maskLoaded` flag. */
module Mask {

  /** One 8-bit colour channel as `getImageData` reports it. */
  type Channel = c: int | 0 <= c <= 255

  datatype Pixel = Pixel(r: Channel, g: Channel, b: Channel, a: Channel)

  /** The mask canvas: whether the image has finished loading, its size, and
      its pixels row by row (`pixels[y][x]`). */
  datatype Grid = Grid(loaded: bool, width: nat, height: nat, pixels: seq<seq<Pixel>>)
  {
    /** The canvas holds exactly `width` × `height` pixels. */
    ghost predicate Valid()
    {
      && |pixels| == height
      && forall y :: 0 <= y < |pixels| ==> |pixels[y]| == width
    }
  }

  /** A channel value at or above this is too bright to walk on. */
  const DarkLimit: int := 30

  /** Red, green and blue are each below the limit; alpha plays no part. */
  predicate IsDark(p: Pixel)
  {
    p.r < DarkLimit && p.g < DarkLimit && p.b < DarkLimit
  }

  predicate InBounds(m: Grid, x: int, y: int)
  {
    0 <= x < m.width && 0 <= y < m.height
  }

  /** `canWalk(x, y)`: only a point inside a loaded mask can be walkable. */
  function CanWalk(m: Grid, x: int, y: int): (r: bool)
    requires m.Valid()
    ensures r ==> m.loaded && InBounds(m, x, y)
  {
    if !m.loaded then false
    else if x < 0 || y < 0 || x >= m.width || y >= m.height then false
    else
      IsDark(m.pixels[y][x])
  }

  /** Before the mask image has loaded no point is walkable. */
  lemma CanWalkNeedsLoadedMask(m: Grid, x: int, y: int)
    requires m.Valid() && !m.loaded
    ensures !CanWalk(m, x, y)
  {
  }

  /** A point left of, above, right of or below the mask is never walkable. */
  lemma CanWalkOutOfBounds(m: Grid, x: int, y: int)
    requires m.Valid()
    requires x < 0 || y < 0 || x >= m.width || y >= m.height
    ensures !CanWalk(m, x, y)
  {
  }

  /** Inside a loaded mask, a point is walkable exactly when its pixel is dark. */
  lemma CanWalkInBounds(m: Grid, x: int, y: int)
    requires m.Valid() && m.loaded && InBounds(m, x, y)
    ensures CanWalk(m, x, y) <==> IsDark(m.pixels[y][x])
  {
  }

  /** Changing only the alpha channel of one pixel changes no answer. */
  lemma CanWalkIgnoresAlpha(m: Grid, px: nat, py: nat, a: Channel, x: int, y: int)
    requires m.Valid() && InBounds(m, px, py)
    ensures var p := m.pixels[py][px];
            var m' := m.(pixels := m.pixels[py := m.pixels[py][px := p.(a := a)]]);
            m'.Valid() && CanWalk(m', x, y) == CanWalk(m, x, y)
  {
  }
}
