/** The vertex shader's `calculateMorph`: how far a vertex of the unit tile
    blends toward the next coarser lattice, from its distance to the tile's
    flagged borders. */
module Morph {
  import opened EdgeFlags

  /** `MORPH_REGION`: the width of the band along a flagged border. */
  const MORPH_REGION: real := 0.3

  /** GLSL `clamp(x, lo, hi)`, that is `min(max(x, lo), hi)`. */
  function Clamp(x: real, lo: real, hi: real): real {
    var m := if x > lo then x else lo;
    if m < hi then m else hi
  }

  /** GLSL `max`. */
  function Max(a: real, b: real): real {
    if a > b then a else b
  }

  /** The ramp of one border at distance `d` from it: 1 on the border, falling
      linearly to 0 at distance `MORPH_REGION` and staying 0 beyond. */
  function Ramp(d: real): (r: real)
    ensures 0.0 <= r <= 1.0
    ensures d <= 0.0 ==> r == 1.0
    ensures d >= MORPH_REGION ==> r == 0.0
    ensures 0.0 <= d <= MORPH_REGION ==> r == 1.0 - d / MORPH_REGION
  {
    1.0 - Clamp(d / MORPH_REGION, 0.0, 1.0)
  }

  /** The ramp of border `edge`, or 0 when the mask does not flag it. */
  function EdgeRamp(mask: Mask, edge: nat, d: real): real
    requires IsEdge(edge)
  {
    if EdgePresent(mask, edge) then Ramp(d) else 0.0
  }

  /** The morph factor as a closed form: the largest of the four border ramps,
      with the ramps of unflagged borders taken as 0. Distances are those of
      `(px, py)` to the top (`y = 1`), left (`x = 0`), bottom (`y = 0`) and
      right (`x = 1`) borders of the unit tile. */
  function MorphFactor(px: real, py: real, mask: Mask): real {
    Max(Max(EdgeRamp(mask, TOP, 1.0 - py), EdgeRamp(mask, LEFT, px)),
        Max(EdgeRamp(mask, BOTTOM, py), EdgeRamp(mask, RIGHT, 1.0 - px)))
  }

  /** `calculateMorph`: four guarded updates of a running maximum, each taken
      only when its border is flagged and the vertex lies in its band. */
  method CalculateMorph(px: real, py: real, mask: Mask) returns (morphFactor: real)
    ensures morphFactor == MorphFactor(px, py, mask)
  {
    morphFactor := 0.0;
    if EdgePresent(mask, TOP) && py >= 1.0 - MORPH_REGION {
      var m := 1.0 - Clamp((1.0 - py) / MORPH_REGION, 0.0, 1.0);
      morphFactor := Max(m, morphFactor);
    }
    if EdgePresent(mask, LEFT) && px <= MORPH_REGION {
      var m := 1.0 - Clamp(px / MORPH_REGION, 0.0, 1.0);
      morphFactor := Max(m, morphFactor);
    }
    if EdgePresent(mask, BOTTOM) && py <= MORPH_REGION {
      var m := 1.0 - Clamp(py / MORPH_REGION, 0.0, 1.0);
      morphFactor := Max(m, morphFactor);
    }
    if EdgePresent(mask, RIGHT) && px >= 1.0 - MORPH_REGION {
      var m := 1.0 - Clamp((1.0 - px) / MORPH_REGION, 0.0, 1.0);
      morphFactor := Max(m, morphFactor);
    }
  }

  /** The morph factor always lies in `[0, 1]`. */
  lemma MorphInUnitRange(px: real, py: real, mask: Mask)
    ensures 0.0 <= MorphFactor(px, py, mask) <= 1.0
  {
  }

  /** A tile with no flagged border never morphs. */
  lemma NoFlagsNoMorph(px: real, py: real)
    ensures MorphFactor(px, py, NONE) == 0.0
  {
  }

  /** The factor is the maximum of the flagged ramps, not their sum: it is at
      least each flagged ramp, and it is 0 or equal to one of them. */
  lemma MorphIsMaximum(px: real, py: real, mask: Mask)
    ensures EdgePresent(mask, TOP) ==> Ramp(1.0 - py) <= MorphFactor(px, py, mask)
    ensures EdgePresent(mask, LEFT) ==> Ramp(px) <= MorphFactor(px, py, mask)
    ensures EdgePresent(mask, BOTTOM) ==> Ramp(py) <= MorphFactor(px, py, mask)
    ensures EdgePresent(mask, RIGHT) ==> Ramp(1.0 - px) <= MorphFactor(px, py, mask)
    ensures var m := MorphFactor(px, py, mask);
      || m == 0.0
      || (EdgePresent(mask, TOP) && m == Ramp(1.0 - py))
      || (EdgePresent(mask, LEFT) && m == Ramp(px))
      || (EdgePresent(mask, BOTTOM) && m == Ramp(py))
      || (EdgePresent(mask, RIGHT) && m == Ramp(1.0 - px))
  {
  }

  /** The vertex lies on (or beyond) a border its tile flags. */
  predicate OnFlaggedBorder(px: real, py: real, mask: Mask) {
    || (EdgePresent(mask, TOP) && py >= 1.0)
    || (EdgePresent(mask, LEFT) && px <= 0.0)
    || (EdgePresent(mask, BOTTOM) && py <= 0.0)
    || (EdgePresent(mask, RIGHT) && px >= 1.0)
  }

  /** On a flagged border the vertex morphs fully. */
  lemma FullMorphOnFlaggedBorder(px: real, py: real, mask: Mask)
    requires OnFlaggedBorder(px, py, mask)
    ensures MorphFactor(px, py, mask) == 1.0
  {
    MorphInUnitRange(px, py, mask);
  }

  /** A vertex at least `MORPH_REGION` away from every flagged border does not
      morph. */
  lemma NoMorphOutsideBands(px: real, py: real, mask: Mask)
    requires EdgePresent(mask, TOP) ==> 1.0 - py >= MORPH_REGION
    requires EdgePresent(mask, LEFT) ==> px >= MORPH_REGION
    requires EdgePresent(mask, BOTTOM) ==> py >= MORPH_REGION
    requires EdgePresent(mask, RIGHT) ==> 1.0 - px >= MORPH_REGION
    ensures MorphFactor(px, py, mask) == 0.0
  {
  }

  /** With only TOP flagged the factor is 0 up to `y = 0.7`, rises linearly to
      1 at `y = 1`, and never decreases as `y` grows. */
  lemma TopMorphShape(px: real, py: real, py': real)
    requires py <= py'
    ensures py <= 1.0 - MORPH_REGION ==> MorphFactor(px, py, TOP) == 0.0
    ensures 1.0 - MORPH_REGION <= py <= 1.0 ==> MorphFactor(px, py, TOP) == (py - 0.7) / MORPH_REGION
    ensures MorphFactor(px, py, TOP) <= MorphFactor(px, py', TOP)
  {
    var a, b := Ramp(1.0 - py), Ramp(1.0 - py');
    assert MorphFactor(px, py, TOP) == a;
    assert MorphFactor(px, py', TOP) == b;
    if 1.0 - MORPH_REGION <= py <= 1.0 {
      assert a == 1.0 - (1.0 - py) / MORPH_REGION;
    }
  }
}
