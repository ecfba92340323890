/** The tile layout the `Terrain` constructor lays out: four centre tiles of
    the finest scale and, for each doubling of the scale, a ring of twelve
    tiles around the square the finer tiles cover. */
module TileLayout {
  import opened EdgeFlags

  /** What one `createTile(x, y, scale, edgeMorph)` call records: the tile's
      lower-left corner, its edge length and its edge-morph mask. */
  datatype Tile = Tile(x: real, y: real, scale: real, flags: Mask)

  /** `Math.pow(2, k)` for a natural exponent. */
  function Pow2(k: nat): (p: nat)
    ensures p >= 1
  {
    if k == 0 then 1 else 2 * Pow2(k - 1)
  }

  lemma {:induction false} Pow2Monotone(j: nat, k: nat)
    requires j <= k
    ensures Pow2(j) <= Pow2(k)
  {
    if j < k { Pow2Monotone(j, k - 1); }
  }

  /** `worldWidth / Math.pow(2, levels)`. */
  function InitialScale(worldWidth: real, levels: nat): real {
    worldWidth / Pow2(levels) as real
  }

  /** The scale of loop pass `k`: the initial scale doubled `k` times. */
  function PassScale(s: real, k: nat): real {
    s * Pow2(k) as real
  }

  /** The four centre tiles, in the order they are created. */
  function Centre(s: real): seq<Tile> {
    [Tile(-s, -s, s, NONE), Tile(-s, 0.0, s, NONE), Tile(0.0, 0.0, s, NONE), Tile(0.0, -s, s, NONE)]
  }

  /** The twelve tiles one loop pass creates at scale `sc`, in the order they
      are created. A corner mask is the sum of its two distinct single-border
      flags, which is their bitwise union (`MaskValues`). */
  function Ring(sc: real): seq<Tile> {
    [ Tile(-2.0 * sc, -2.0 * sc, sc, BOTTOM + LEFT),
      Tile(-2.0 * sc, -sc, sc, LEFT),
      Tile(-2.0 * sc, 0.0, sc, LEFT),
      Tile(-2.0 * sc, sc, sc, TOP + LEFT),
      Tile(-sc, -2.0 * sc, sc, BOTTOM),
      Tile(-sc, sc, sc, TOP),
      Tile(0.0, -2.0 * sc, sc, BOTTOM),
      Tile(0.0, sc, sc, TOP),
      Tile(sc, -2.0 * sc, sc, BOTTOM + RIGHT),
      Tile(sc, -sc, sc, RIGHT),
      Tile(sc, 0.0, sc, RIGHT),
      Tile(sc, sc, sc, TOP + RIGHT) ]
  }

  /** The rings of the first `n` loop passes, finest first. */
  function Rings(s: real, n: nat): seq<Tile> {
    if n == 0 then [] else Rings(s, n - 1) + Ring(PassScale(s, n - 1))
  }

  /** How many times `for (scale = initialScale; scale < worldWidth; scale *= 2)`
      runs: `levels` times when the world has a positive width, otherwise never
      (a non-positive width leaves `initialScale >= worldWidth`). */
  function Passes(worldWidth: real, levels: nat): nat {
    if worldWidth > 0.0 then levels else 0
  }

  /** Every tile the constructor creates, in creation order. */
  function Plan(worldWidth: real, levels: nat): seq<Tile> {
    var s := InitialScale(worldWidth, levels);
    Centre(s) + Rings(s, Passes(worldWidth, levels))
  }

  /** The closed square a tile covers. */
  predicate Covers(t: Tile, px: real, py: real) {
    t.x <= px <= t.x + t.scale && t.y <= py <= t.y + t.scale
  }

  /** The open square inside a tile. */
  predicate Inside(t: Tile, px: real, py: real) {
    t.x < px < t.x + t.scale && t.y < py < t.y + t.scale
  }

  // ---------------------------------------------------------------------
  // Counts and scales

  lemma {:induction false} RingsLength(s: real, n: nat)
    ensures |Rings(s, n)| == 12 * n
  {
    if n > 0 { RingsLength(s, n - 1); }
  }

  /** The constructor creates `4 + 12 * levels` tiles for a positive world
      width, and only the four centre tiles otherwise. */
  lemma PlanLength(worldWidth: real, levels: nat)
    ensures worldWidth > 0.0 ==> |Plan(worldWidth, levels)| == 4 + 12 * levels
    ensures worldWidth <= 0.0 ==> |Plan(worldWidth, levels)| == 4
  {
    RingsLength(InitialScale(worldWidth, levels), Passes(worldWidth, levels));
  }

  /** Tile `j` of loop pass `k` sits at index `12 * k + j` of the rings. */
  lemma {:induction false} RingsAt(s: real, n: nat, k: nat, j: nat)
    requires k < n && j < 12
    ensures |Rings(s, n)| == 12 * n
    ensures Rings(s, n)[12 * k + j] == Ring(PassScale(s, k))[j]
  {
    RingsLength(s, n);
    RingsLength(s, n - 1);
    var front, last := Rings(s, n - 1), Ring(PassScale(s, n - 1));
    assert Rings(s, n) == front + last;
    if k < n - 1 {
      RingsAt(s, n - 1, k, j);
      assert (front + last)[12 * k + j] == front[12 * k + j];
    } else {
      assert 12 * k + j == |front| + j;
      assert (front + last)[12 * k + j] == last[j];
    }
  }

  /** The first four tiles are the centre tiles; tile `4 + 12 * k + j` is
      tile `j` of loop pass `k`, at scale `initialScale * 2^k`. */
  lemma PlanAt(worldWidth: real, levels: nat, k: nat, j: nat)
    requires k < Passes(worldWidth, levels) && j < 12
    ensures |Plan(worldWidth, levels)| == 4 + 12 * Passes(worldWidth, levels)
    ensures Plan(worldWidth, levels)[4 + 12 * k + j]
            == Ring(PassScale(InitialScale(worldWidth, levels), k))[j]
    ensures Plan(worldWidth, levels)[4 + 12 * k + j].scale
            == InitialScale(worldWidth, levels) * Pow2(k) as real
  {
    var s := InitialScale(worldWidth, levels);
    var n := Passes(worldWidth, levels);
    var centre, rings := Centre(s), Rings(s, n);
    RingsAt(s, n, k, j);
    assert Plan(worldWidth, levels) == centre + rings;
    assert (centre + rings)[4 + 12 * k + j] == rings[12 * k + j];
    RingNeverNone(PassScale(s, k), j);
  }

  /** The pass a tile index belongs to (the centre tiles count as pass 0). */
  function PassOf(i: nat): nat {
    if i < 4 then 0 else (i - 4) / 12
  }

  /** Every tile's scale is the initial scale times a power of two: the centre
      tiles and the first ring have `initialScale`, and pass `k` doubles it `k`
      times. Only the centre tiles carry `NONE`. */
  lemma PlanScalesAndFlags(worldWidth: real, levels: nat, i: nat)
    requires i < |Plan(worldWidth, levels)|
    ensures Plan(worldWidth, levels)[i].scale
            == InitialScale(worldWidth, levels) * Pow2(PassOf(i)) as real
    ensures Plan(worldWidth, levels)[i].flags == NONE <==> i < 4
  {
    var s := InitialScale(worldWidth, levels);
    PlanTileOrigin(worldWidth, levels, i);
    if i >= 4 {
      RingNeverNone(PassScale(s, PassOf(i)), RingSlot(i));
    }
  }

  /** In a world of positive width the scales are exact: the initial scale
      doubled `levels` times is the world width. */
  lemma ScaleReachesWorldWidth(worldWidth: real, levels: nat)
    requires worldWidth > 0.0
    ensures PassScale(InitialScale(worldWidth, levels), levels) == worldWidth
  {
  }

  // ---------------------------------------------------------------------
  // The centre tiles

  /** The four centre tiles carry `NONE` and together cover `[-s, s]^2`. */
  lemma CentreCovers(s: real, px: real, py: real)
    requires s > 0.0
    requires -s <= px <= s && -s <= py <= s
    ensures forall t :: t in Centre(s) ==> t.scale == s && t.flags == NONE
    ensures exists i :: 0 <= i < 4 && Covers(Centre(s)[i], px, py)
  {
    var c := Centre(s);
    if px <= 0.0 && py <= 0.0 { assert Covers(c[0], px, py); }
    else if px <= 0.0 { assert Covers(c[1], px, py); }
    else if py <= 0.0 { assert Covers(c[3], px, py); }
    else { assert Covers(c[2], px, py); }
  }

  // ---------------------------------------------------------------------
  // One ring

  lemma RingNeverNone(sc: real, j: nat)
    requires j < 12
    ensures Ring(sc)[j].flags != NONE
    ensures Ring(sc)[j].scale == sc
  {
  }

  /** Each flag is set exactly on the tiles of the outward column or row it
      names: LEFT on column `-2 sc`, RIGHT on column `sc`, BOTTOM on row
      `-2 sc`, TOP on row `sc`. */
  lemma RingFlagsMatchPosition(sc: real, j: nat)
    requires sc > 0.0 && j < 12
    ensures var t := Ring(sc)[j];
      && (EdgePresent(t.flags, LEFT) <==> t.x == -2.0 * sc)
      && (EdgePresent(t.flags, RIGHT) <==> t.x == sc)
      && (EdgePresent(t.flags, BOTTOM) <==> t.y == -2.0 * sc)
      && (EdgePresent(t.flags, TOP) <==> t.y == sc)
  {
    var r := Ring(sc);
    assert r[j] in r;
  }

  /** The masks of a sequence of tiles, in order. */
  function FlagsOf(ts: seq<Tile>): seq<Mask> {
    seq(|ts|, i requires 0 <= i < |ts| => ts[i].flags)
  }

  /** How many masks of `ms` flag exactly `n` borders. */
  function CountFlagged(ms: seq<Mask>, n: nat): nat {
    if ms == [] then 0 else (if FlagCount(ms[0]) == n then 1 else 0) + CountFlagged(ms[1..], n)
  }

  /** The masks of one ring, in creation order. */
  const RING_FLAGS: seq<Mask> := [6, 2, 2, 3, 4, 1, 4, 1, 12, 8, 8, 9]

  /** The corner masks the constructor builds with `|` are the sums `Ring`
      uses. */
  lemma MaskValues()
    ensures Or(BOTTOM, LEFT) == BOTTOM + LEFT && Or(TOP, LEFT) == TOP + LEFT
    ensures Or(BOTTOM, RIGHT) == BOTTOM + RIGHT && Or(TOP, RIGHT) == TOP + RIGHT
  {
  }

  lemma FlagCountValues()
    ensures FlagCount(1) == 1 && FlagCount(2) == 1 && FlagCount(4) == 1 && FlagCount(8) == 1
    ensures FlagCount(3) == 2 && FlagCount(6) == 2 && FlagCount(9) == 2 && FlagCount(12) == 2
  {
  }

  /** In every ring the four corner tiles flag two borders and the other eight
      flag one; no ring tile flags none or more than two. */
  lemma RingFlagCounts(sc: real)
    ensures CountFlagged(FlagsOf(Ring(sc)), 2) == 4
    ensures CountFlagged(FlagsOf(Ring(sc)), 1) == 8
    ensures forall t :: t in Ring(sc) ==> 1 <= FlagCount(t.flags) <= 2
  {
    RingMasks(sc);
    RingFlagsCounted();
    forall t | t in Ring(sc) ensures 1 <= FlagCount(t.flags) <= 2 {
      RingFlagIn(Ring(sc), t);
    }
  }

  /** A tile's mask is among the masks of the tiles it belongs to. */
  lemma RingFlagIn(ts: seq<Tile>, t: Tile)
    requires t in ts
    ensures t.flags in FlagsOf(ts)
  {
    var j :| 0 <= j < |ts| && ts[j] == t;
    assert FlagsOf(ts)[j] == t.flags;
  }

  lemma RingFlagsCounted()
    ensures CountFlagged(RING_FLAGS, 2) == 4 && CountFlagged(RING_FLAGS, 1) == 8
    ensures forall m :: m in RING_FLAGS ==> 1 <= FlagCount(m) <= 2
  {
    RingCornersCounted();
    RingSidesCounted();
    RingMasksInRange();
  }

  lemma RingCornersCounted()
    ensures CountFlagged(RING_FLAGS, 2) == 4
  {
    FlagCountValues();
  }

  lemma RingSidesCounted()
    ensures CountFlagged(RING_FLAGS, 1) == 8
  {
    FlagCountValues();
  }

  lemma RingMasksInRange()
    ensures forall m :: m in RING_FLAGS ==> 1 <= FlagCount(m) <= 2
  {
    FlagCountValues();
  }

  lemma RingMasks(sc: real)
    ensures FlagsOf(Ring(sc)) == RING_FLAGS
  {
    var f := FlagsOf(Ring(sc));
    assert f[0] == 6 && f[3] == 3 && f[8] == 12 && f[11] == 9;
  }

  /** The column (or row) index of an offset on the ring's 4 x 4 grid. */
  predicate OnGrid(sc: real, v: real) {
    v == -2.0 * sc || v == -sc || v == 0.0 || v == sc
  }

  /** An offset of the inner 2 x 2 square the finer tiles occupy. */
  predicate InnerCell(sc: real, x: real, y: real) {
    (x == -sc || x == 0.0) && (y == -sc || y == 0.0)
  }

  /** The ring's twelve offsets are pairwise distinct and all lie on the
      4 x 4 grid `{-2 sc, -sc, 0, sc}^2` outside its inner 2 x 2. */
  lemma RingOffsetsDistinct(sc: real, i: nat, j: nat)
    requires sc > 0.0 && i < 12 && j < 12
    ensures OnGrid(sc, Ring(sc)[i].x) && OnGrid(sc, Ring(sc)[i].y)
    ensures !InnerCell(sc, Ring(sc)[i].x, Ring(sc)[i].y)
    ensures i != j ==> (Ring(sc)[i].x, Ring(sc)[i].y) != (Ring(sc)[j].x, Ring(sc)[j].y)
  {
  }

  /** Conversely every cell of the grid outside the inner square is one ring
      tile: the ring is exactly the 4 x 4 grid minus its centre 2 x 2. */
  lemma RingFillsGrid(sc: real, x: real, y: real)
    requires OnGrid(sc, x) && OnGrid(sc, y) && !InnerCell(sc, x, y)
    ensures exists j :: 0 <= j < 12 && Ring(sc)[j].x == x && Ring(sc)[j].y == y
  {
    var r := Ring(sc);
    var j: nat :=
      if x == -2.0 * sc then (if y == -2.0 * sc then 0 else if y == -sc then 1 else if y == 0.0 then 2 else 3)
      else if x == sc then (if y == -2.0 * sc then 8 else if y == -sc then 9 else if y == 0.0 then 10 else 11)
      else if x == -sc then (if y == -2.0 * sc then 4 else 5)
      else (if y == -2.0 * sc then 6 else 7);
    assert r[j].x == x && r[j].y == y;
  }

  /** The inside of a ring tile never meets the open square `(-sc, sc)^2` that
      the finer tiles cover, and always lies in `(-2 sc, 2 sc)^2`. */
  lemma RingOutsideInner(sc: real, j: nat, px: real, py: real)
    requires sc > 0.0 && j < 12
    requires Inside(Ring(sc)[j], px, py)
    ensures !(-sc < px < sc && -sc < py < sc)
    ensures -2.0 * sc < px < 2.0 * sc && -2.0 * sc < py < 2.0 * sc
  {
    RingOffsetsDistinct(sc, j, j);
  }

  /** Two different tiles of one ring have disjoint insides. */
  lemma RingTilesDisjoint(sc: real, i: nat, j: nat, px: real, py: real)
    requires sc > 0.0 && i < 12 && j < 12 && i != j
    requires Inside(Ring(sc)[i], px, py)
    ensures !Inside(Ring(sc)[j], px, py)
  {
    RingOffsetsDistinct(sc, i, j);
    RingOffsetsDistinct(sc, j, i);
  }

  /** Ring `sc` covers the closed frame between `[-sc, sc]^2` and
      `[-2 sc, 2 sc]^2`. */
  lemma RingCovers(sc: real, px: real, py: real)
    requires sc > 0.0
    requires -2.0 * sc <= px <= 2.0 * sc && -2.0 * sc <= py <= 2.0 * sc
    requires !(-sc < px < sc && -sc < py < sc)
    ensures exists j :: 0 <= j < 12 && Covers(Ring(sc)[j], px, py)
  {
    var cx := if px <= -sc then -2.0 * sc else if px < 0.0 then -sc else if px < sc then 0.0 else sc;
    var cy := if py <= -sc then -2.0 * sc else if py < 0.0 then -sc else if py < sc then 0.0 else sc;
    RingFillsGrid(sc, cx, cy);
    var j :| 0 <= j < 12 && Ring(sc)[j].x == cx && Ring(sc)[j].y == cy;
    RingNeverNone(sc, j);
    assert Covers(Ring(sc)[j], px, py);
  }

  // ---------------------------------------------------------------------
  // The whole layout

  /** The centre tiles plus the first `n` rings cover `[-s 2^n, s 2^n]^2`
      with no gap. */
  lemma {:induction false} LayoutCovers(s: real, n: nat, px: real, py: real)
    requires s > 0.0
    requires -PassScale(s, n) <= px <= PassScale(s, n) && -PassScale(s, n) <= py <= PassScale(s, n)
    ensures exists i :: 0 <= i < |Centre(s) + Rings(s, n)| && Covers((Centre(s) + Rings(s, n))[i], px, py)
  {
    if n == 0 {
      CentreCovers(s, px, py);
      var i :| 0 <= i < 4 && Covers(Centre(s)[i], px, py);
      assert (Centre(s) + Rings(s, n))[i] == Centre(s)[i];
    } else {
      var sc := PassScale(s, n - 1);
      assert PassScale(s, n) == 2.0 * sc;
      var prefix := Centre(s) + Rings(s, n - 1);
      assert Centre(s) + Rings(s, n) == prefix + Ring(sc);
      if -sc <= px <= sc && -sc <= py <= sc {
        LayoutCovers(s, n - 1, px, py);
        var i :| 0 <= i < |prefix| && Covers(prefix[i], px, py);
        assert (prefix + Ring(sc))[i] == prefix[i];
      } else {
        RingCovers(sc, px, py);
        var j :| 0 <= j < 12 && Covers(Ring(sc)[j], px, py);
        RingsLength(s, n - 1);
        assert (prefix + Ring(sc))[|prefix| + j] == Ring(sc)[j];
      }
    }
  }

  /** In a world of positive width the tiles cover `[-worldWidth, worldWidth]^2`
      without a gap. */
  lemma PlanCovers(worldWidth: real, levels: nat, px: real, py: real)
    requires worldWidth > 0.0
    requires -worldWidth <= px <= worldWidth && -worldWidth <= py <= worldWidth
    ensures exists i :: 0 <= i < |Plan(worldWidth, levels)| && Covers(Plan(worldWidth, levels)[i], px, py)
  {
    var s := InitialScale(worldWidth, levels);
    ScaleReachesWorldWidth(worldWidth, levels);
    assert Plan(worldWidth, levels) == Centre(s) + Rings(s, levels);
    LayoutCovers(s, levels, px, py);
  }

  /** Where tile `i` of the layout comes from: a centre tile, or slot
      `RingSlot(i)` of the ring of pass `PassOf(i)`. */
  function RingSlot(i: nat): nat {
    if i < 4 then 0 else i - 4 - 12 * PassOf(i)
  }

  lemma PlanTileOrigin(worldWidth: real, levels: nat, i: nat)
    requires i < |Plan(worldWidth, levels)|
    ensures i < 4 ==> Plan(worldWidth, levels)[i] == Centre(InitialScale(worldWidth, levels))[i]
    ensures i >= 4 ==> PassOf(i) < Passes(worldWidth, levels) && RingSlot(i) < 12
    ensures i >= 4 ==> Plan(worldWidth, levels)[i]
                       == Ring(PassScale(InitialScale(worldWidth, levels), PassOf(i)))[RingSlot(i)]
  {
    var s := InitialScale(worldWidth, levels);
    var n := Passes(worldWidth, levels);
    RingsLength(s, n);
    if i >= 4 {
      var k := PassOf(i);
      var j := RingSlot(i);
      assert 0 <= j < 12;
      assert k < n by { assert 4 + 12 * k <= i < 4 + 12 * n; }
      PlanAt(worldWidth, levels, k, j);
    }
  }

  lemma PassScaleGrows(s: real, k: nat, k': nat)
    requires s > 0.0 && k < k'
    ensures s <= PassScale(s, k)
    ensures 2.0 * PassScale(s, k) <= PassScale(s, k')
  {
    Pow2Monotone(0, k);
    Pow2Monotone(k + 1, k');
    assert Pow2(k + 1) as real == 2.0 * Pow2(k) as real;
  }

  /** The inside of a centre tile lies in `(-s, s)^2`, and two different
      centre tiles have disjoint insides. */
  lemma CentreTilesDisjoint(s: real, i: nat, j: nat, px: real, py: real)
    requires s > 0.0 && i < 4 && j < 4
    requires Inside(Centre(s)[i], px, py)
    ensures -s < px < s && -s < py < s
    ensures i != j ==> !Inside(Centre(s)[j], px, py)
  {
  }

  /** A centre tile and a tile of a ring no finer than it never overlap. */
  lemma CentreRingDisjoint(s: real, sc: real, c: nat, r: nat, px: real, py: real)
    requires 0.0 < s <= sc && c < 4 && r < 12
    requires Inside(Centre(s)[c], px, py)
    ensures !Inside(Ring(sc)[r], px, py)
  {
    CentreTilesDisjoint(s, c, c, px, py);
    if Inside(Ring(sc)[r], px, py) {
      RingOutsideInner(sc, r, px, py);
      assert false;
    }
  }

  /** Tiles of two rings whose scales differ by a factor of two or more never
      overlap. */
  lemma RingsApartDisjoint(sc: real, sc': real, a: nat, b: nat, px: real, py: real)
    requires 0.0 < sc && 2.0 * sc <= sc' && a < 12 && b < 12
    requires Inside(Ring(sc)[a], px, py)
    ensures !Inside(Ring(sc')[b], px, py)
  {
    RingOutsideInner(sc, a, px, py);
    if Inside(Ring(sc')[b], px, py) {
      RingOutsideInner(sc', b, px, py);
      assert false;
    }
  }

  /** A centre tile and a ring tile of the layout never overlap. */
  lemma PlanCentreRingDisjoint(worldWidth: real, levels: nat, i: nat, j: nat, px: real, py: real)
    requires worldWidth > 0.0
    requires i < 4 <= j < |Plan(worldWidth, levels)|
    requires Inside(Plan(worldWidth, levels)[i], px, py)
    ensures !Inside(Plan(worldWidth, levels)[j], px, py)
  {
    var s := InitialScale(worldWidth, levels);
    PlanTileOrigin(worldWidth, levels, i);
    PlanTileOrigin(worldWidth, levels, j);
    var k := PassOf(j);
    PassScaleGrows(s, k, k + 1);
    CentreRingDisjoint(s, PassScale(s, k), i, RingSlot(j), px, py);
  }

  /** Two different tiles of the same ring of the layout never overlap. */
  lemma PlanSameRingDisjoint(worldWidth: real, levels: nat, i: nat, j: nat, px: real, py: real)
    requires worldWidth > 0.0
    requires 4 <= i < |Plan(worldWidth, levels)| && 4 <= j < |Plan(worldWidth, levels)|
    requires i != j && PassOf(i) == PassOf(j)
    requires Inside(Plan(worldWidth, levels)[i], px, py)
    ensures !Inside(Plan(worldWidth, levels)[j], px, py)
  {
    var s := InitialScale(worldWidth, levels);
    PlanTileOrigin(worldWidth, levels, i);
    PlanTileOrigin(worldWidth, levels, j);
    RingTilesDisjoint(PassScale(s, PassOf(i)), RingSlot(i), RingSlot(j), px, py);
  }

  /** A tile of a ring of the layout never overlaps a tile of a later ring. */
  lemma PlanLaterRingDisjoint(worldWidth: real, levels: nat, i: nat, j: nat, px: real, py: real)
    requires worldWidth > 0.0
    requires 4 <= i < |Plan(worldWidth, levels)| && 4 <= j < |Plan(worldWidth, levels)|
    requires PassOf(i) < PassOf(j)
    requires Inside(Plan(worldWidth, levels)[i], px, py)
    ensures !Inside(Plan(worldWidth, levels)[j], px, py)
  {
    var s := InitialScale(worldWidth, levels);
    PlanTileOrigin(worldWidth, levels, i);
    PlanTileOrigin(worldWidth, levels, j);
    var ki, kj := PassOf(i), PassOf(j);
    PassScaleGrows(s, ki, kj);
    RingsApartDisjoint(PassScale(s, ki), PassScale(s, kj), RingSlot(i), RingSlot(j), px, py);
  }

  /** No two tiles of the layout overlap: the inside of one tile never meets
      the inside of another. With `PlanCovers` this makes the layout a tiling
      of `[-worldWidth, worldWidth]^2`. */
  lemma PlanTilesDisjoint(worldWidth: real, levels: nat, i: nat, j: nat, px: real, py: real)
    requires worldWidth > 0.0
    requires i < |Plan(worldWidth, levels)| && j < |Plan(worldWidth, levels)| && i != j
    requires Inside(Plan(worldWidth, levels)[i], px, py)
    ensures !Inside(Plan(worldWidth, levels)[j], px, py)
  {
    var plan := Plan(worldWidth, levels);
    if i < 4 && j < 4 {
      var s := InitialScale(worldWidth, levels);
      PlanTileOrigin(worldWidth, levels, i);
      PlanTileOrigin(worldWidth, levels, j);
      CentreTilesDisjoint(s, i, j, px, py);
    } else if i < 4 {
      PlanCentreRingDisjoint(worldWidth, levels, i, j, px, py);
    } else if j < 4 {
      if Inside(plan[j], px, py) {
        PlanCentreRingDisjoint(worldWidth, levels, j, i, px, py);
      }
    } else if PassOf(i) == PassOf(j) {
      PlanSameRingDisjoint(worldWidth, levels, i, j, px, py);
    } else if PassOf(i) < PassOf(j) {
      PlanLaterRingDisjoint(worldWidth, levels, i, j, px, py);
    } else if Inside(plan[j], px, py) {
      PlanLaterRingDisjoint(worldWidth, levels, j, i, px, py);
    }
  }
}
