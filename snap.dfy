/** The lattice snap the vertex shader applies, `floor(v / grid) * grid`, over
    exact reals. */
module GridSnap {
  import opened RealArith

  /** `floor(v / g) * g`: the largest multiple of `g` not above `v`. */
  function Snap(v: real, g: real): (r: real)
    requires g > 0.0
    ensures r <= v < r + g
  {
    FloorScaled(v, g);
    (v / g).Floor as real * g
  }

  /** Scaling the floor bounds of `v / g` back by `g`. */
  lemma FloorScaled(v: real, g: real)
    requires g > 0.0
    ensures (v / g).Floor as real * g <= v < (v / g).Floor as real * g + g
  {
    var y := v / g;
    var n := y.Floor as real;
    FloorBounds(y);
    assert y * g == v;
    MulStrict(y, n + 1.0, g);
    MulMono(n, y, g);
    calc {
      v;
    ==
      y * g;
    <
      (n + 1.0) * g;
    ==
      n * g + g;
    }
  }

  lemma FloorBounds(y: real)
    ensures y.Floor as real <= y < y.Floor as real + 1.0
  {
  }

  /** Snapping is the identity on the lattice, so snapping twice at the same
      spacing is snapping once. */
  lemma SnapIdempotent(v: real, g: real)
    requires g > 0.0
    ensures Snap(Snap(v, g), g) == Snap(v, g)
  {
    var n := (v / g).Floor;
    var r := Snap(v, g);
    assert r / g == n as real;
    FloorUnique(r / g, n);
  }

  /** The snap is the unique lattice point in `(v - g, v]`. */
  lemma SnapUnique(v: real, g: real, n: int)
    requires g > 0.0
    requires n as real * g <= v < n as real * g + g
    ensures Snap(v, g) == n as real * g
  {
    var y := v / g;
    assert n as real <= y < n as real + 1.0 by {
      assert y * g == v;
      assert (n as real + 1.0) * g == n as real * g + g;
      if y >= n as real + 1.0 {
        MulMono(n as real + 1.0, y, g);
      }
      if y < n as real {
        MulStrict(y, n as real, g);
      }
    }
    assert y.Floor == n;
  }

  /** A real in `[q, q + 1)` has floor `q`. */
  lemma FloorUnique(z: real, q: int)
    requires q as real <= z < q as real + 1.0
    ensures z.Floor == q
  {
  }

  /** `floor(floor(y) / 2) == floor(y / 2)`. */
  lemma FloorHalf(y: real)
    ensures (y.Floor as real / 2.0).Floor == (y / 2.0).Floor
  {
    var n := y.Floor;
    var q := n / 2;
    FloorBounds(y);
    assert 2 * q <= n <= 2 * q + 1;
    FloorUnique(n as real / 2.0, q);
    FloorUnique(y / 2.0, q);
  }

  /** Snapping a fine-lattice point to the lattice of twice the spacing lands
      where snapping the original point would. */
  lemma CoarseSnapOfFine(v: real, g: real)
    requires g > 0.0
    ensures Snap(Snap(v, g), 2.0 * g) == Snap(v, 2.0 * g)
  {
    var y := v / g;
    var n := y.Floor as real;
    var fine := Snap(v, g);
    assert fine == n * g;
    HalveQuotient(n, v, g);
    FloorHalf(y);
    assert (fine / (2.0 * g)).Floor == (v / (2.0 * g)).Floor;
  }

  /** Dividing by `2 g` is dividing by `g` and then by 2. */
  lemma HalveQuotient(n: real, v: real, g: real)
    requires g > 0.0
    ensures (n * g) / (2.0 * g) == n / 2.0
    ensures v / (2.0 * g) == (v / g) / 2.0
  {
  }

  /** A multiple of `g` is its own snap. */
  lemma SnapOfLatticePoint(m: int, g: real)
    requires g > 0.0
    ensures Snap(m as real * g, g) == m as real * g
  {
    assert (m as real * g) / g == m as real;
    FloorUnique((m as real * g) / g, m);
  }

  /** Snapping preserves order. */
  lemma SnapMonotone(a: real, b: real, g: real)
    requires g > 0.0 && a <= b
    ensures Snap(a, g) <= Snap(b, g)
  {
    assert a / g <= b / g by {
      MulMono(a, b, 1.0 / g);
      assert a / g == a * (1.0 / g) && b / g == b * (1.0 / g);
    }
    var fa, fb := (a / g).Floor as real, (b / g).Floor as real;
    assert fa <= fb;
    MulMono(fa, fb, g);
  }

  /** The coarse lattice lies within the fine one, and its snap never lies
      above the fine snap. */
  lemma CoarseBelowFine(v: real, g: real)
    requires g > 0.0
    ensures Snap(v, 2.0 * g) <= Snap(v, g)
    ensures Snap(Snap(v, 2.0 * g), g) == Snap(v, 2.0 * g)
  {
    var m := (v / (2.0 * g)).Floor;
    var c := Snap(v, 2.0 * g);
    var k := 2 * m;
    assert c == m as real * (2.0 * g);
    assert c == k as real * g;
    SnapOfLatticePoint(k, g);
    assert Snap(k as real * g, g) == c;
    SnapMonotone(c, v, g);
    assert Snap(c, g) <= Snap(v, g);
  }
}
