/** The four-bit edge-morph mask a tile carries (the `Edge` table of the
    terrain script and the `EDGE_MORPH_*` constants of its vertex shader). */
module EdgeFlags {

  /** A mask over the four borders TOP, LEFT, BOTTOM and RIGHT. */
  type Mask = m: nat | m < 16

  const NONE: Mask := 0
  const TOP: Mask := 1
  const LEFT: Mask := 2
  const BOTTOM: Mask := 4
  const RIGHT: Mask := 8

  /** The four single-border flags. */
  predicate IsEdge(e: nat) {
    e == TOP || e == LEFT || e == BOTTOM || e == RIGHT
  }

  /** JavaScript's bitwise `|` on two masks. */
  function Or(a: Mask, b: Mask): Mask {
    (a as bv4 | b as bv4) as nat
  }

  /** The union of two masks flags a border exactly when either operand
      flags it. */
  lemma OrFlags(a: Mask, b: Mask)
    ensures forall e :: IsEdge(e) ==> (EdgePresent(Or(a, b), e) <==> EdgePresent(a, e) || EdgePresent(b, e))
  {
    OrBits(a, b);
    BitTestAll(a);
    BitTestAll(b);
    BitTestAll(Or(a, b));
  }

  /** The same fact for the bitwise test. */
  lemma OrBits(a: Mask, b: Mask)
    ensures BitSet(Or(a, b), TOP) <==> BitSet(a, TOP) || BitSet(b, TOP)
    ensures BitSet(Or(a, b), LEFT) <==> BitSet(a, LEFT) || BitSet(b, LEFT)
    ensures BitSet(Or(a, b), BOTTOM) <==> BitSet(a, BOTTOM) || BitSet(b, BOTTOM)
    ensures BitSet(Or(a, b), RIGHT) <==> BitSet(a, RIGHT) || BitSet(b, RIGHT)
  {
    var x, y := a as bv4, b as bv4;
    assert Or(a, b) as bv4 == x | y;
  }

  /** The shader's `edgePresent`: divide the mask by the edge value (integer
      division; the operands are never negative, so truncation and Dafny's
      Euclidean division agree) and report whether the quotient is odd. */
  function EdgePresent(mask: nat, edge: nat): bool
    requires edge > 0
  {
    var e := mask / edge;
    2 * (e / 2) != e
  }

  /** The reference meaning of a flag test: the bitwise `&` of the two values. */
  predicate BitSet(mask: Mask, edge: Mask) {
    (mask as bv4 & edge as bv4) != 0
  }

  /** The division-based test is exactly a bit test for every mask and every
      single-border flag. */
  lemma EdgePresentIsBitTest(mask: Mask, edge: nat)
    requires IsEdge(edge)
    ensures EdgePresent(mask, edge) <==> BitSet(mask, edge)
  {
    BitTestAll(mask);
  }

  /** The bit test, written out for each of the four flags of one mask. */
  lemma BitTestAll(mask: Mask)
    ensures EdgePresent(mask, TOP) <==> BitSet(mask, TOP)
    ensures EdgePresent(mask, LEFT) <==> BitSet(mask, LEFT)
    ensures EdgePresent(mask, BOTTOM) <==> BitSet(mask, BOTTOM)
    ensures EdgePresent(mask, RIGHT) <==> BitSet(mask, RIGHT)
  {
    var m := mask;
    if m == 0 {} else if m == 1 {} else if m == 2 {} else if m == 3 {}
    else if m == 4 {} else if m == 5 {} else if m == 6 {} else if m == 7 {}
    else if m == 8 {} else if m == 9 {} else if m == 10 {} else if m == 11 {}
    else if m == 12 {} else if m == 13 {} else if m == 14 {} else {}
  }

  /** A `NONE` mask reports no border. */
  lemma NoneHasNoEdge(edge: nat)
    requires IsEdge(edge)
    ensures !EdgePresent(NONE, edge)
  {
  }

  /** How many of the four borders a mask flags. */
  function FlagCount(mask: Mask): (n: nat)
    ensures n <= 4
    ensures n == 0 <==> mask == NONE
  {
    BitTestAll(mask);
    assert mask != 0 ==> BitSet(mask, TOP) || BitSet(mask, LEFT) || BitSet(mask, BOTTOM) || BitSet(mask, RIGHT) by {
      if mask != 0 { BitsOfNonZero(mask); }
    }
    (if EdgePresent(mask, TOP) then 1 else 0) + (if EdgePresent(mask, LEFT) then 1 else 0)
    + (if EdgePresent(mask, BOTTOM) then 1 else 0) + (if EdgePresent(mask, RIGHT) then 1 else 0)
  }

  lemma BitsOfNonZero(mask: Mask)
    requires mask != 0
    ensures BitSet(mask, TOP) || BitSet(mask, LEFT) || BitSet(mask, BOTTOM) || BitSet(mask, RIGHT)
  {
    BitTestAll(mask);
  }
}
