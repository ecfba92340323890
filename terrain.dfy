/** The `Terrain` object: its constructor creates the four centre tiles and
    then, in a doubling loop, one ring of twelve tiles per level, appending a
    descriptor per `createTile` call. */
module TerrainActor {
  import opened EdgeFlags
  import opened TileLayout
  import opened RealArith

  /** An argument the caller may leave `undefined`. */
  datatype Option<T> = Undefined | Given(value: T)

  const DEFAULT_WORLD_WIDTH: real := 1024.0
  const DEFAULT_RESOLUTION: nat := 128

  /** A world-space translation. */
  datatype Vec3 = Vec3(x: real, y: real, z: real)

  /** The loop `scale < worldWidth` runs while its pass index is below the
      number of passes `Passes` predicts. */
  lemma LoopGuard(worldWidth: real, levels: nat, k: nat)
    requires k <= Passes(worldWidth, levels)
    ensures PassScale(InitialScale(worldWidth, levels), k) < worldWidth
            <==> k < Passes(worldWidth, levels)
  {
    var p, q := Pow2(levels) as real, Pow2(k) as real;
    var s := InitialScale(worldWidth, levels);
    assert s == worldWidth / p;
    QuotientTimes(worldWidth, p);
    if worldWidth > 0.0 {
      if k < levels {
        Pow2Monotone(k + 1, levels);
        assert Pow2(k + 1) == 2 * Pow2(k);
        PositiveQuotient(worldWidth, p);
        MulStrict(q, p, s);
        assert q * s < worldWidth;
      } else {
        assert q == p;
      }
    } else {
      assert k == 0 && q == 1.0;
      NonPositiveQuotient(worldWidth, p);
    }
  }

  /** `(w / p) * p == w` for a positive divisor. */
  lemma QuotientTimes(w: real, p: real)
    requires p > 0.0
    ensures (w / p) * p == w
  {
  }

  lemma PositiveQuotient(w: real, p: real)
    requires w > 0.0 && p > 0.0
    ensures w / p > 0.0
  {
  }

  /** Dividing a non-positive width by at least 1 does not lower it. */
  lemma NonPositiveQuotient(w: real, p: real)
    requires w <= 0.0 && p >= 1.0
    ensures w / p >= w
  {
  }

  class Terrain {
    var worldWidth: real
    var levels: nat
    var resolution: nat
    /** The translation every tile's vertex stage adds; written by the caller. */
    var offset: Vec3
    /** The descriptor of every tile added to the terrain, in the order added. */
    var tiles: seq<Tile>

    /** `createTile`: records one tile and adds it to the terrain. */
    method CreateTile(x: real, y: real, scale: real, edgeMorph: Mask)
      modifies this`tiles
      ensures tiles == old(tiles) + [Tile(x, y, scale, edgeMorph)]
    {
      tiles := tiles + [Tile(x, y, scale, edgeMorph)];
    }

    /** The constructor's four centre tiles of the finest scale `s`, none of
        which morphs. */
    method CreateCentre(s: real)
      modifies this`tiles
      ensures tiles == old(tiles) + Centre(s)
    {
      CreateTile(-s, -s, s, NONE);
      CreateTile(-s, 0.0, s, NONE);
      CreateTile(0.0, 0.0, s, NONE);
      CreateTile(0.0, -s, s, NONE);
    }

    /** One pass of the constructor's loop: the twelve tiles around the square
        of side `2 * scale` that the finer tiles cover. */
    method CreateRing(scale: real)
      modifies this`tiles
      ensures tiles == old(tiles) + Ring(scale)
    {
      MaskValues();
      var far := -2.0 * scale;
      CreateTile(far, far, scale, Or(BOTTOM, LEFT));
      CreateTile(far, -scale, scale, LEFT);
      CreateTile(far, 0.0, scale, LEFT);
      CreateTile(far, scale, scale, Or(TOP, LEFT));

      CreateTile(-scale, far, scale, BOTTOM);
      CreateTile(-scale, scale, scale, TOP);

      CreateTile(0.0, far, scale, BOTTOM);
      CreateTile(0.0, scale, scale, TOP);

      CreateTile(scale, far, scale, Or(BOTTOM, RIGHT));
      CreateTile(scale, -scale, scale, RIGHT);
      CreateTile(scale, 0.0, scale, RIGHT);
      CreateTile(scale, scale, scale, Or(TOP, RIGHT));
      assert tiles == old(tiles) + Ring(scale);
    }

    /** The constructor, with `worldWidth` and `resolution` defaulting to 1024
        and 128; its tiles are exactly `Plan(worldWidth, levels)`. */
    constructor (worldWidth: Option<real>, levels: nat, resolution: Option<nat>)
      ensures this.worldWidth == (if worldWidth.Given? then worldWidth.value else DEFAULT_WORLD_WIDTH)
      ensures this.levels == levels
      ensures this.resolution == (if resolution.Given? then resolution.value else DEFAULT_RESOLUTION)
      ensures offset == Vec3(0.0, 0.0, 0.0)
      ensures tiles == Plan(this.worldWidth, levels)
    {
      this.worldWidth := if worldWidth.Given? then worldWidth.value else DEFAULT_WORLD_WIDTH;
      this.levels := levels;
      this.resolution := if resolution.Given? then resolution.value else DEFAULT_RESOLUTION;
      offset := Vec3(0.0, 0.0, 0.0);
      tiles := [];
      new;

      var initialScale := this.worldWidth / Pow2(levels) as real;

      CreateCentre(initialScale);
      assert tiles == Centre(initialScale) + Rings(initialScale, 0);
      ghost var width, res := this.worldWidth, this.resolution;
      var scale := initialScale;
      ghost var k: nat := 0;
      while scale < this.worldWidth
        invariant this.worldWidth == width && this.levels == levels
        invariant this.resolution == res && offset == Vec3(0.0, 0.0, 0.0)
        invariant k <= Passes(this.worldWidth, levels)
        invariant scale == PassScale(initialScale, k)
        invariant tiles == Centre(initialScale) + Rings(initialScale, k)
        decreases Passes(this.worldWidth, levels) - k
      {
        LoopGuard(this.worldWidth, levels, k);
        CreateRing(scale);
        NextPass(initialScale, k);
        k := k + 1;
        scale := scale * 2.0;
      }
      LoopGuard(this.worldWidth, levels, k);
      assert initialScale == InitialScale(this.worldWidth, levels);
    }
  }

  /** One more pass doubles the scale and appends that pass's ring. */
  lemma NextPass(s: real, k: nat)
    ensures PassScale(s, k + 1) == PassScale(s, k) * 2.0
    ensures Rings(s, k + 1) == Rings(s, k) + Ring(PassScale(s, k))
  {
    assert Pow2(k + 1) as real == 2.0 * Pow2(k) as real;
  }
}
