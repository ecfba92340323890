/** The fragment shader's coverage alpha: 1 inside the world square
    `[-2000, 2000]^2`, bounds included, and 0 outside it. */
module FragmentStage {
  import opened HeightSampler

  /** GLSL `step(edge, x)`: 0 below the edge, 1 from the edge on. */
  function Step(edge: real, x: real): real {
    if x < edge then 0.0 else 1.0
  }

  /** The world square the height field and overlay cover, bounds included. */
  predicate InWorld(x: real, y: real) {
    -WORLD_BOUND <= x <= WORLD_BOUND && -WORLD_BOUND <= y <= WORLD_BOUND
  }

  /** `alpha.x * alpha.y * alpha2.x * alpha2.y` with
      `alpha = step(-2000, -xy)` and `alpha2 = step(-2000, xy)`. */
  function Alpha(x: real, y: real): (a: real)
    ensures a == 0.0 || a == 1.0
    ensures a == 1.0 <==> InWorld(x, y)
  {
    Step(-WORLD_BOUND, -x) * Step(-WORLD_BOUND, -y) * Step(-WORLD_BOUND, x) * Step(-WORLD_BOUND, y)
  }

  /** The pixel is visible exactly where its texture coordinate lies in
      `[0, 1]^2`, that is where the overlay and height field are defined. */
  lemma AlphaMatchesTexCoord(x: real, y: real)
    ensures Alpha(x, y) == 1.0 <==> (0.0 <= TexCoord(x) <= 1.0 && 0.0 <= TexCoord(y) <= 1.0)
  {
  }

  /** The bound is inclusive: `x = 2000` is visible, `x = 2000.1` is not. */
  lemma AlphaAtBound()
    ensures Alpha(2000.0, 0.0) == 1.0
    ensures Alpha(2000.1, 0.0) == 0.0
  {
  }
}
