# Clipmap terrain LOD: a verified model

This project models the core of a clipmap terrain renderer written in
JavaScript and GLSL (`js/terrainLOD.js`). The terrain is one unit-square mesh
instanced many times. Four centre tiles at the finest scale sit around the
origin. Each doubling of the scale adds a ring of twelve tiles around the square
the finer tiles cover. Each ring tile carries a four-bit edge-morph mask that
names its outward borders. The vertex shader blends vertices near a flagged
border toward the lattice of the next coarser ring, which closes the seams. It
then reads the height from a two-channel height texture. The fragment shader
masks everything outside the world square `[-2000, 2000]^2`.

Modules, one per component of the script, and one of shared proof support:

- `EdgeFlags` (`edges.dfy`): the `Edge` constants, JavaScript's `|` on masks,
  and the shader's division-based `edgePresent`, proved equal to a bitwise test.
- `TileLayout` (`layout.dfy`): tile descriptors and the layout as a pure
  specification (`Plan`), with lemmas on counts, scales, flags, ring geometry,
  coverage and disjointness.
- `TerrainActor` (`terrain.dfy`): the `Terrain` class. Its constructor runs the
  source's doubling loop, and `CreateTile` appends one descriptor to the
  `tiles` field. The constructor is proved to produce exactly `Plan`.
- `GridSnap` (`snap.dfy`): `floor(v / g) * g` over exact reals.
- `Morph` (`morph.dfy`): `calculateMorph` as a method with the source's four
  guarded updates, proved equal to a closed-form maximum of border ramps.
- `HeightSampler` (`height.dfy`): the texture coordinate and the
  red/green height decode, with the texture lookup as a function parameter.
- `VertexStage` (`vertex.dfy`): the vertex `main`, proved equal to a closed
  form that snaps the unsnapped position directly to both lattices.
- `FragmentStage` (`fragment.dfy`): the coverage alpha built from four `step`s.
- `RealArith` (`arith.dfy`): monotonicity of multiplication by a positive real,
  shared by the snapping and layout proofs.

## Behaviour worth noting

- The constructor validates no parameter. With `worldWidth <= 0` the loop
  never runs and only the four centre tiles are created (`PlanLength`).
- The tiles cover `[-worldWidth, worldWidth]^2`, a square of edge
  `2 * worldWidth` (`PlanCovers`).
- The shader reads normalised channels (`byte / 255`), so bytes `R, G` decode
  to `255*R + G`; `R = 100, G = 50` gives 25550 (`DecodeExample`).

## Model

| member | source | states |
|---|---|---|
| `TileLayout.Pow2` | js/terrainLOD.js:129 | `Math.pow(2, k)` for a natural exponent, at least 1 |
| `TileLayout.InitialScale` | js/terrainLOD.js:129 | `initialScale = worldWidth / Math.pow(2, levels)` |
| `TileLayout.PassScale` | js/terrainLOD.js:140 | the value of `scale` after `k` passes of `scale *= 2`: `initialScale * 2^k` |
| `TileLayout.Rings` | js/terrainLOD.js:140-156 | the tiles the first `n` loop passes create, finest ring first |
| `Morph.MorphFactor` | js/terrainLOD.js:42-62 | the morph factor as the largest ramp of the flagged borders, 0 when none is flagged |
| `VertexStage.Blend` | js/terrainLOD.js:69-77 | one output coordinate as `mix` of the fine and the coarse snap of the unsnapped position |
| `EdgeFlags.EdgePresent` | js/terrainLOD.js:35-38 | the shader's test: the quotient `mask / edge` is odd |
| `EdgeFlags.Or` | js/terrainLOD.js:141-155 | JavaScript's bitwise OR on two four-bit masks |
| `HeightSampler.Decode` | js/terrainLOD.js:32 | the height `(r * 255 + g) * 255` from the normalised red and green channels |
| `TileLayout.Centre` | js/terrainLOD.js:133-136 | the four centre descriptors of scale `s`, mask NONE, in creation order |
| `TileLayout.Ring` | js/terrainLOD.js:141-155 | the twelve descriptors of one loop pass at scale `sc`, in creation order |
| `TileLayout.Passes` | js/terrainLOD.js:129-140 | how often the doubling loop runs: `levels` for a positive width, otherwise 0 |
| `TileLayout.Plan` | js/terrainLOD.js:129-156 | every descriptor the constructor creates: the centre tiles, then one ring per pass |
| `Morph.Clamp` | js/terrainLOD.js:45 | GLSL `clamp(x, lo, hi)` as `min(max(x, lo), hi)` |
| `Morph.Max` | js/terrainLOD.js:46 | GLSL `max(a, b)` |
| `VertexStage.Grid` | js/terrainLOD.js:69 | the lattice spacing `uScale / TILE_RESOLUTION`, positive for a positive scale |
| `VertexStage.Mix` | js/terrainLOD.js:76 | GLSL `mix(a, b, t) = a * (1 - t) + b * t` |
| `FragmentStage.Step` | js/terrainLOD.js:98-99 | GLSL `step(edge, x)`: 0 below the edge, otherwise 1 |
| `EdgeFlags.EdgePresentIsBitTest` | js/terrainLOD.js:35-38 | for every mask in 0..15 and each flag 1, 2, 4, 8, "`mask / edge` is odd" holds exactly when `mask & edge` is non-zero |
| `EdgeFlags.BitTestAll` | js/terrainLOD.js:1-7 | the same bit test for each of TOP, LEFT, BOTTOM and RIGHT, for one mask |
| `EdgeFlags.NoneHasNoEdge` | js/terrainLOD.js:2 | a `NONE` mask reports no border present |
| `EdgeFlags.OrFlags` | js/terrainLOD.js:141 | the bitwise OR of two masks flags a border exactly when either operand flags it |
| `EdgeFlags.OrBits` | js/terrainLOD.js:141 | the same, for the bitwise-AND test of each flag |
| `EdgeFlags.FlagCount` | js/terrainLOD.js:1-7 | the number of flagged borders is at most 4, and 0 exactly for `NONE` |
| `TileLayout.PlanLength` | js/terrainLOD.js:129-156 | a positive world width gives `4 + 12 * levels` tiles; a non-positive one gives the 4 centre tiles only |
| `TileLayout.RingsLength` | js/terrainLOD.js:140-156 | `n` loop passes create `12 * n` ring tiles |
| `TileLayout.RingsAt` | js/terrainLOD.js:140-156 | ring tile `12 * k + j` is slot `j` of the ring at the scale of pass `k` |
| `TileLayout.PlanAt` | js/terrainLOD.js:140-156 | tile `4 + 12 * k + j` is slot `j` of pass `k`'s ring, with scale `initialScale * 2^k` |
| `TileLayout.PlanTileOrigin` | js/terrainLOD.js:133-156 | every tile index is either a centre tile or a slot of one pass's ring |
| `TileLayout.PlanScalesAndFlags` | js/terrainLOD.js:129-156 | tile `i` has scale `initialScale * 2^PassOf(i)`, and its mask is `NONE` exactly when it is one of the first four |
| `TileLayout.ScaleReachesWorldWidth` | js/terrainLOD.js:129 | for a positive width, `initialScale` doubled `levels` times is exactly `worldWidth` |
| `TileLayout.CentreCovers` | js/terrainLOD.js:133-136 | the centre tiles have scale `s` and mask `NONE`, and together they cover `[-s, s]^2` |
| `TileLayout.RingNeverNone` | js/terrainLOD.js:141-155 | no ring tile has mask `NONE`, and every ring tile has the pass's scale |
| `TileLayout.RingFlagsMatchPosition` | js/terrainLOD.js:141-155 | LEFT is set exactly on column `-2s`, RIGHT on column `s`, BOTTOM on row `-2s` and TOP on row `s` |
| `TileLayout.RingMasks` | js/terrainLOD.js:141-155 | the ring's masks, in creation order, are 6, 2, 2, 3, 4, 1, 4, 1, 12, 8, 8, 9 at every scale |
| `TileLayout.RingFlagsCounted` | js/terrainLOD.js:141-155 | in that mask list, 4 masks flag two borders and 8 flag one |
| `TileLayout.RingFlagCounts` | js/terrainLOD.js:141-155 | every ring has 4 tiles with two flags and 8 with one, and none with zero or more than two |
| `TileLayout.MaskValues` | js/terrainLOD.js:141-155 | each corner mask built with the bitwise OR equals the sum of its two flags: BOTTOM or LEFT = 6, TOP or LEFT = 3, BOTTOM or RIGHT = 12, TOP or RIGHT = 9 |
| `TileLayout.RingOffsetsDistinct` | js/terrainLOD.js:141-155 | the 12 ring offsets are pairwise distinct and lie in the 4×4 grid `{-2s,-s,0,s}^2`, outside its inner 2×2 `{-s,0}^2` |
| `TileLayout.RingFillsGrid` | js/terrainLOD.js:141-155 | every cell of that grid outside the inner 2×2 is the offset of some ring tile |
| `TileLayout.RingOutsideInner` | js/terrainLOD.js:141-155 | the inside of a ring tile misses the open square `(-s, s)^2` of the finer tiles and lies in `(-2s, 2s)^2` |
| `TileLayout.RingTilesDisjoint` | js/terrainLOD.js:141-155 | two different tiles of one ring do not overlap |
| `TileLayout.RingCovers` | js/terrainLOD.js:141-155 | a ring covers the closed frame between `[-s, s]^2` and `[-2s, 2s]^2` |
| `TileLayout.LayoutCovers` | js/terrainLOD.js:133-156 | the centre tiles plus `n` rings cover `[-s*2^n, s*2^n]^2` with no gap |
| `TileLayout.PlanCovers` | js/terrainLOD.js:129-156 | for a positive width, the tiles cover `[-worldWidth, worldWidth]^2` with no gap |
| `TileLayout.CentreTilesDisjoint` | js/terrainLOD.js:133-136 | the inside of a centre tile lies in `(-s, s)^2`, and two centre tiles do not overlap |
| `TileLayout.CentreRingDisjoint` | js/terrainLOD.js:133-155 | a centre tile never overlaps a tile of a ring at least as coarse |
| `TileLayout.RingsApartDisjoint` | js/terrainLOD.js:140-156 | tiles of two rings whose scales differ by a factor of at least 2 never overlap |
| `TileLayout.PlanCentreRingDisjoint` | js/terrainLOD.js:133-155 | a centre tile and a ring tile of the layout never overlap |
| `TileLayout.PlanSameRingDisjoint` | js/terrainLOD.js:141-155 | two different tiles of one ring never overlap |
| `TileLayout.PlanLaterRingDisjoint` | js/terrainLOD.js:140-155 | a ring tile never overlaps a tile of a later, coarser ring |
| `TileLayout.PlanTilesDisjoint` | js/terrainLOD.js:129-156 | no two different tiles of the layout overlap |
| `TileLayout.PassScaleGrows` | js/terrainLOD.js:140 | `scale *= 2` never shrinks the scale below `initialScale`, and a later pass's scale is at least twice an earlier one's |
| `TerrainActor.LoopGuard` | js/terrainLOD.js:140 | the guard `scale < worldWidth` holds at pass `k` exactly when `k` is below the pass count (`levels`, or 0 for a non-positive width) |
| `TerrainActor.NextPass` | js/terrainLOD.js:140 | `scale *= 2` moves to the next pass's scale, and that pass appends its ring |
| `TerrainActor.Terrain.CreateTile` | js/terrainLOD.js:161-166 | appends the descriptor `(x, y, scale, edgeMorph)` to the terrain's tiles and changes nothing else |
| `TerrainActor.Terrain.CreateCentre` | js/terrainLOD.js:133-136 | appends the four centre tiles of the finest scale, all with mask NONE, in source order |
| `TerrainActor.Terrain.CreateRing` | js/terrainLOD.js:141-155 | one pass of the loop body: appends that scale's twelve ring tiles in source order |
| `TerrainActor.Terrain.constructor` | js/terrainLOD.js:106-157 | `worldWidth` and `resolution` default to 1024 and 128, the offset starts at 0, and the tiles created are exactly `Plan(worldWidth, levels)` |
| `GridSnap.Snap` | js/terrainLOD.js:70 | the snap lies in `(v - g, v]` |
| `GridSnap.SnapUnique` | js/terrainLOD.js:70 | the snap is the one multiple of `g` in `(v - g, v]` |
| `GridSnap.SnapIdempotent` | js/terrainLOD.js:70 | snapping twice at the same spacing equals snapping once |
| `GridSnap.SnapOfLatticePoint` | js/terrainLOD.js:70 | a multiple of `g` is its own snap |
| `GridSnap.SnapMonotone` | js/terrainLOD.js:70 | snapping preserves order |
| `GridSnap.FloorHalf` | js/terrainLOD.js:74 | `floor(floor(y) / 2) == floor(y / 2)` |
| `GridSnap.CoarseSnapOfFine` | js/terrainLOD.js:70-74 | snapping the fine-snapped position to spacing `2g` equals snapping the original position to `2g` |
| `GridSnap.CoarseBelowFine` | js/terrainLOD.js:73-74 | the coarse snap is on the fine lattice and never above the fine snap |
| `Morph.Ramp` | js/terrainLOD.js:45 | a border ramp is in `[0, 1]`: 1 on the border, `1 - d/0.3` inside the band, 0 from distance 0.3 on |
| `Morph.CalculateMorph` | js/terrainLOD.js:42-62 | the four guarded updates compute the gate-free maximum of the flagged borders' ramps (`MorphFactor`) |
| `Morph.MorphInUnitRange` | js/terrainLOD.js:42-62 | the morph factor is in `[0, 1]` |
| `Morph.NoFlagsNoMorph` | js/terrainLOD.js:42-62 | with mask `NONE` the morph factor is 0 |
| `Morph.MorphIsMaximum` | js/terrainLOD.js:46-58 | the factor is at least every flagged ramp, and it is 0 or equal to one of them (a maximum, never a sum) |
| `Morph.FullMorphOnFlaggedBorder` | js/terrainLOD.js:44-59 | on (or beyond) a flagged border the factor is 1 |
| `Morph.NoMorphOutsideBands` | js/terrainLOD.js:44-59 | at distance 0.3 or more from every flagged border the factor is 0 |
| `Morph.TopMorphShape` | js/terrainLOD.js:44-47 | with TOP only, the factor is 0 up to `y = 0.7`, equals `(y - 0.7)/0.3` on `[0.7, 1]`, and never decreases in `y` |
| `HeightSampler.Normalise` | js/terrainLOD.js:31 | a normalised channel is in `[0, 1]` |
| `HeightSampler.TexCoord` | js/terrainLOD.js:29 | `(p + 2000)/4000` is in `[0, 1]` exactly when `p` is in `[-2000, 2000]` |
| `HeightSampler.DecodeOfBytes` | js/terrainLOD.js:32 | decoding the normalised bytes `R, G` gives `255*R + G`, which lies in `[0, 65280]` |
| `HeightSampler.GetHeight` | js/terrainLOD.js:27-33 | the height is `255*R + G` for the bytes the height field yields at `((x+2000)/4000, (y+2000)/4000)`, and lies in `[0, 65280]` |
| `HeightSampler.DecodeExample` | js/terrainLOD.js:32 | red 100 and green 50 decode to 25550 |
| `HeightSampler.DecodeCollides` | js/terrainLOD.js:32 | the decode is not injective: (0, 255) and (1, 0) decode alike |
| `VertexStage.VertexMain` | js/terrainLOD.js:64-80 | the output morph factor is `MorphFactor`; each coordinate is the closed-form blend of the fine and coarse snaps of the unsnapped world position; the height is `GetHeight` at the blended position |
| `VertexStage.MixOfSnaps` | js/terrainLOD.js:72-77 | `mix(snapped, snap(snapped, 2g), m)` equals the closed form, and with `m = 0` the fine snap alone equals it |
| `VertexStage.BlendBetweenSnaps` | js/terrainLOD.js:69-77 | for `m` in `[0, 1]`, the coordinate lies between the coarse and fine snaps, within `2g` below the raw position; it is the fine snap at `m = 0` and the coarse snap at `m = 1` |
| `VertexStage.FlaggedBorderMeetsCoarserLattice` | js/terrainLOD.js:65-77 | a vertex on a flagged border morphs fully and lands where a non-morphing tile of twice the scale puts the same world point |
| `VertexStage.UnflaggedTileStaysOnLattice` | js/terrainLOD.js:65-77 | vertices of a `NONE` tile, such as a centre tile, stay on the tile's own lattice |
| `FragmentStage.Alpha` | js/terrainLOD.js:98-101 | alpha is 0 or 1, and it is 1 exactly when `-2000 <= x <= 2000` and `-2000 <= y <= 2000` |
| `FragmentStage.AlphaMatchesTexCoord` | js/terrainLOD.js:95-101 | alpha is 1 exactly when the texture coordinate lies in `[0, 1]^2` |
| `FragmentStage.AlphaAtBound` | js/terrainLOD.js:98-101 | `(2000, 0)` is visible and `(2000.1, 0)` is not |

## Left out

- Scene-graph and material plumbing: `THREE.Object3D.call`, the inherited
  prototype, `PlaneGeometry`, the translation matrix, `Mesh` and
  `ShaderMaterial` with its uniforms (js/terrainLOD.js:107, 119-125, 159,
  162-183). These are calls into a rendering library. The model keeps only the
  descriptor each `createTile` call passes on.
- The `resolution` parameter is stored with its default, but the mesh it
  subdivides is not modelled.
- Texture loading and sampling: the unused `TextureLoader().load` and the
  `texture2DLod`/`texture2D` lookups (js/terrainLOD.js:31, 96, 169) are GPU
  I/O. The height field is a function parameter from texture coordinate to
  channel bytes. The returned bytes are assumed to stand for the filtered texel.
  The constructor's `heightData` and `text` arguments, which it stores on the
  object (js/terrainLOD.js:112-113) and hands to each tile's material, are
  therefore not fields of the `Terrain` class.
- The overlay colour the fragment stage outputs, the unused `vNormal` varying
  and `console.log` (js/terrainLOD.js:17, 96, 101, 163).
- The projection `projectionMatrix * modelViewMatrix` (js/terrainLOD.js:81) is
  an external transform.
- IEEE float rounding: all shader and layout arithmetic is over exact reals.
- Non-termination of the layout loop: for a positive `worldWidth`, when
  `levels >= 1024` makes `Math.pow(2, levels)` `Infinity` (js/terrainLOD.js:129)
  or when `worldWidth / 2^levels` underflows, `initialScale` is 0. Then
  `scale *= 2` stays 0, `scale < worldWidth` holds for ever, and the
  constructor never returns (js/terrainLOD.js:140). (For `worldWidth <= 0` the
  guard fails at once and the four centre tiles are returned, as in the model.)
  Over exact reals the model's loop always ends after `Passes` iterations, so
  it does not capture this hang.
- The plane's `z` coordinate: it is 0, and the height replaces it, so the
  model carries only `x` and `y` into the height lookup.
- `uGlobalOffset` is written by code outside this file. The `Terrain` field
  `offset` starts at 0, and the vertex stage takes the offset as a parameter.
- Omitting `levels`: the initial scale reads the raw argument, not
  `this.levels`, so an omitted `levels` computes with NaN
  (js/terrainLOD.js:110, 129). The model requires `levels` as a natural number.
- Parallel execution of shader invocations: each stage is a per-vertex or
  per-pixel computation.
- VertexStage.VertexMain: requires `uScale > 0`. A zero scale makes the shader
  divide by zero. A non-positive scale arises only from a non-positive
  `worldWidth`, whose shader behaviour is not modelled.
- EdgeFlags.EdgePresent: masks are natural numbers (the layout only creates
  masks in 0..15), so GLSL's truncating division of negative masks is not
  modelled.
- TerrainActor.Terrain.CreateRing: the twelve `createTile` calls of the loop body are
  grouped into one method, and the four centre calls into `CreateCentre`. The
  constructor calls them in the source's order.
