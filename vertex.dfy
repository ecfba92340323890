/** The vertex shader's `main`: morph factor, world position, snap to the
    tile's lattice, snap to the next coarser lattice and blend, height lookup. */
module VertexStage {
  import opened EdgeFlags
  import opened RealArith
  import opened GridSnap
  import opened Morph
  import opened HeightSampler

  /** `TILE_RESOLUTION`: lattice cells per tile edge. */
  const TILE_RESOLUTION: real := 250.0

  /** The spacing of the lattice of a tile of the given scale. */
  function Grid(scale: real): (g: real)
    requires scale > 0.0
    ensures g > 0.0
  {
    scale / TILE_RESOLUTION
  }

  /** GLSL `mix(a, b, t)`. */
  function Mix(a: real, b: real, t: real): real {
    a * (1.0 - t) + b * t
  }

  /** One coordinate of the vertex as a closed form: the fine snap and the
      coarse snap, both of the unsnapped position `w`, weighted by the morph
      factor `m`. */
  function Blend(w: real, g: real, m: real): real
    requires g > 0.0
  {
    Mix(Snap(w, g), Snap(w, 2.0 * g), m)
  }

  /** What the vertex stage hands on: `vPosition` and `vMorphFactor`. */
  datatype VertexOut = VertexOut(x: real, y: real, z: real, morphFactor: real)

  /** `main` for vertex `(px, py)` of the unit tile (the plane's `z` is 0 and
      is replaced by the height), a tile of scale `uScale` at `uTileOffset`
      with mask `uEdgeMorph`, the shared `uGlobalOffset` and the height field
      `uHeightData`. */
  method VertexMain(px: real, py: real, uScale: real, uTileOffsetX: real, uTileOffsetY: real,
                    uGlobalOffsetX: real, uGlobalOffsetY: real, uEdgeMorph: Mask,
                    uHeightData: Texture)
    returns (out: VertexOut)
    requires uScale > 0.0
    ensures out.morphFactor == MorphFactor(px, py, uEdgeMorph)
    ensures out.x == Blend(uScale * px + uTileOffsetX + uGlobalOffsetX, Grid(uScale), out.morphFactor)
    ensures out.y == Blend(uScale * py + uTileOffsetY + uGlobalOffsetY, Grid(uScale), out.morphFactor)
    ensures out.z == GetHeight(out.x, out.y, uHeightData)
  {
    var vMorphFactor := CalculateMorph(px, py, uEdgeMorph);
    MorphInUnitRange(px, py, uEdgeMorph);

    var x := uScale * px + uTileOffsetX + uGlobalOffsetX;
    var y := uScale * py + uTileOffsetY + uGlobalOffsetY;
    ghost var wx, wy := x, y;

    var grid := uScale / TILE_RESOLUTION;
    assert grid == Grid(uScale);
    x := Snap(x, grid);
    y := Snap(y, grid);

    if vMorphFactor > 0.0 {
      grid := 2.0 * grid;
      var x2 := Snap(x, grid);
      var y2 := Snap(y, grid);
      MixOfSnaps(wx, Grid(uScale), vMorphFactor);
      MixOfSnaps(wy, Grid(uScale), vMorphFactor);
      x := Mix(x, x2, vMorphFactor);
      y := Mix(y, y2, vMorphFactor);
    } else {
      MixOfSnaps(wx, Grid(uScale), vMorphFactor);
      MixOfSnaps(wy, Grid(uScale), vMorphFactor);
    }

    var z := GetHeight(x, y, uHeightData);
    out := VertexOut(x, y, z, vMorphFactor);
  }

  /** The shader's two steps, snapping the snapped position again and mixing,
      give the closed form; with a zero factor the fine snap already is it. */
  lemma MixOfSnaps(w: real, g: real, m: real)
    requires g > 0.0
    ensures Mix(Snap(w, g), Snap(Snap(w, g), 2.0 * g), m) == Blend(w, g, m)
    ensures m == 0.0 ==> Snap(w, g) == Blend(w, g, m)
  {
    CoarseSnapOfFine(w, g);
  }

  /** A weighted mean of `c <= f` lies between them, at `f` for weight 0 and
      at `c` for weight 1. */
  lemma MeanBetween(f: real, c: real, m: real)
    requires c <= f && 0.0 <= m <= 1.0
    ensures c <= Mix(f, c, m) <= f
    ensures m == 0.0 ==> Mix(f, c, m) == f
    ensures m == 1.0 ==> Mix(f, c, m) == c
  {
    var e := f - c;
    assert Mix(f, c, m) == f - m * e;
    assert m * e <= e by {
      if e > 0.0 { MulMono(m, 1.0, e); }
    }
  }

  /** The blended coordinate lies between the coarse and the fine snap, so
      within `2 g` below the unsnapped position: on the fine lattice when the
      factor is 0, on the coarse lattice when it is 1. */
  lemma BlendBetweenSnaps(w: real, g: real, m: real)
    requires g > 0.0 && 0.0 <= m <= 1.0
    ensures Snap(w, 2.0 * g) <= Blend(w, g, m) <= Snap(w, g)
    ensures w - 2.0 * g < Blend(w, g, m) <= w
    ensures m == 0.0 ==> Blend(w, g, m) == Snap(w, g)
    ensures m == 1.0 ==> Blend(w, g, m) == Snap(w, 2.0 * g)
  {
    CoarseBelowFine(w, g);
    var f, c := Snap(w, g), Snap(w, 2.0 * g);
    assert Blend(w, g, m) == Mix(f, c, m);
    assert f <= w && w < c + 2.0 * g;
    MeanBetween(f, c, m);
  }

  /** A vertex on a border its tile flags lands on the lattice of a tile twice
      as large: the position the coarser neighbour gives the same world point
      where it does not morph. This is what closes the seam between rings. */
  lemma FlaggedBorderMeetsCoarserLattice(px: real, py: real, scale: real, ox: real, oy: real,
                                         gx: real, gy: real, mask: Mask)
    requires scale > 0.0 && OnFlaggedBorder(px, py, mask)
    ensures var m := MorphFactor(px, py, mask);
      && m == 1.0
      && Blend(scale * px + ox + gx, Grid(scale), m) == Blend(scale * px + ox + gx, Grid(2.0 * scale), 0.0)
      && Blend(scale * py + oy + gy, Grid(scale), m) == Blend(scale * py + oy + gy, Grid(2.0 * scale), 0.0)
  {
    FullMorphOnFlaggedBorder(px, py, mask);
    assert 2.0 * Grid(scale) == Grid(2.0 * scale);
    BlendBetweenSnaps(scale * px + ox + gx, Grid(scale), 1.0);
    BlendBetweenSnaps(scale * py + oy + gy, Grid(scale), 1.0);
    BlendBetweenSnaps(scale * px + ox + gx, Grid(2.0 * scale), 0.0);
    BlendBetweenSnaps(scale * py + oy + gy, Grid(2.0 * scale), 0.0);
  }

  /** Vertices of a tile with no flagged border (the centre tiles) stay on the
      tile's own lattice. */
  lemma UnflaggedTileStaysOnLattice(px: real, py: real, scale: real, w: real)
    requires scale > 0.0
    ensures Blend(w, Grid(scale), MorphFactor(px, py, NONE)) == Snap(w, Grid(scale))
  {
    NoFlagsNoMorph(px, py);
    BlendBetweenSnaps(w, Grid(scale), 0.0);
  }
}
