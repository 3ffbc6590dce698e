# Point-cloud bookkeeping of the globe demo, in Dafny

The demo draws a textured globe inside six concentric shells of coloured
points. `script.js` builds those shells as two flat buffers, `positions` and
`colors`, each with three slots per point. Every shell is a spiral of points on
a sphere (`pointsOnSphere`). Every point takes one of six palette colours,
chosen by its position within its shell. Every shell has its own radius. This
project models that bookkeeping and proves it correct:

- `helpers.dfy` (module `Helpers`): `range`, `sum`, `slicedSum`, `numMap` and
  the in-place `Array.prototype.reverse`.
- `sphere.dfy` (module `Sphere`): `pointsOnSphere`. It covers the point count,
  the exact latitude of each point, and the order in which points are pushed.
- `palette.dfy` (module `Palette`): the palette `colArray`, which is reversed
  in place. It also covers the palette slot of a point and the colour bytes of
  an entry.
- `cloud.dfy` (module `Cloud`): the plan of six shells. It also covers
  `createObjects`: the radius of each shell, the index of the slot triple each
  (shell, point) pair writes, and the two nested loops that fill the buffers.

The model's central claims:

- Shell k holds `canvasSize * 2^(6-k)` points, and `amount == 126 * canvasSize`.
- The index `slicedSum(layers, layerIndex) + pointIndex` maps the (shell, point)
  pairs one-to-one onto `[0, amount)`. `Locate` is its inverse.
- `CreateObjects` writes each of the `amount` triples exactly once. A ghost
  multiset of the triples written records this.
- `CreateObjects` leaves each buffer equal to a function of the plan. In that
  function, the triple of each pair holds the pair's scaled point and its
  colour.

The trigonometric coordinates `x = cos(phi) * r` and `z = sin(phi) * r` are
kept abstract. They come from a parameter `ring`, which maps a point index and
its latitude to `(x, z)`. Everything else is exact `int` and `real`
arithmetic. The canvas size, `min(innerWidth, innerHeight)` in the script, is a
natural-number parameter.

The code computes `r = sqrt(1 - y * y)` with no clamp at zero.
`Sphere.Latitude` proves `1 - y * y > 0` with exact arithmetic, so the value
under the square root is never negative.

The trigonometry enters only through one hypothesis, `Sphere.OnRing(ring)`. It
says that the horizontal coordinates at latitude `y` satisfy
`x * x + z * z == 1 - y * y`, which is what `cos` and `sin` times
`sqrt(1 - y * y)` give over the reals. Under that hypothesis the model proves
that every point of `pointsOnSphere` is on the unit sphere. It also proves that
every triple of `positions` lies on the sphere of its shell's radius.

## Model

| member | source | states |
|---|---|---|
| `Helpers.Range` | script.js:8-11 | `range(n)` has length n and holds j at position j |
| `Helpers.Sum` | script.js:13 | `sum(arr)` is the left fold of `+` from 0; its properties are in `SumAppend` and `SumNonNegative` |
| `Helpers.SumNonNegative` | script.js:13 | a total of non-negative counts is non-negative |
| `Helpers.SumAppend` | script.js:13 | the `reduce` total splits over concatenation |
| `Helpers.SlicedSum` | script.js:14 | `slicedSum(arr, i)` is the sum of the first `min(i, arr.length)` elements; its properties are in `SlicedSumEnds`, `SlicedSumStep`, `SlicedSumPastEnd` and `SlicedSumMonotone` |
| `Helpers.SlicedSumEnds` | script.js:13-14 | `slicedSum(arr, 0) == 0` (the empty sum) and `slicedSum(arr, arr.length) == sum(arr)` |
| `Helpers.SlicedSumStep` | script.js:14 | `slicedSum(arr, i + 1) == slicedSum(arr, i) + arr[i]` for `i < arr.length` |
| `Helpers.SlicedSumPastEnd` | script.js:14 | `slice` clamps its end, so past the length the prefix sum is the whole sum |
| `Helpers.SlicedSumMonotone` | script.js:14 | over non-negative counts, prefix sums never decrease |
| `Helpers.NumMap` | script.js:30-32 | `numMap` sends `sMin` to `dMin` and `sMax` to `dMax` |
| `Helpers.NumMapLinear` | script.js:30-32 | the remap is affine: a step `w - v` in the source moves the result by `(w - v) / (sMax - sMin) * (dMax - dMin)` |
| `Helpers.NumMapStrictlyIncreasing` | script.js:30-32 | with `sMax > sMin` and `dMax > dMin` the remap is strictly increasing |
| `Helpers.NumMapMonotone` | script.js:30-32 | with increasing ranges the remap is non-decreasing |
| `Helpers.Reversed` | script.js:35 | reversal keeps the length |
| `Helpers.ReversedAt` | script.js:35 | position k of the reversal holds element `length - 1 - k` |
| `Helpers.ReverseInPlace` | script.js:104 | `reverse()` leaves the array equal to the reversal of its old contents |
| `Sphere.Latitude` | script.js:18-21 | `y = i * off - 1 + off / 2` with `off = 2 / n` equals `(2i + 1) / n - 1`, lies strictly in (-1, 1), and `1 - y * y > 0` |
| `Sphere.LatitudeArithmetic` | script.js:20-21 | the latitude formula is the centre of band i when [-1, 1] is cut into n bands, and its radicand is positive |
| `Sphere.SpherePoint` | script.js:19-25 | point i is built from the exact latitude `Latitude(i, n)` and the ring coordinates at (i, y); `UnitLength` carries its length |
| `Sphere.UnitLength` | script.js:20-25 | under `OnRing(ring)`, every point has `x * x + y * y + z * z == 1`, so it lies on the unit sphere |
| `Sphere.LatitudeStrictlyIncreasing` | script.js:20 | latitudes strictly increase with the point index |
| `Sphere.PointsOnSphere` | script.js:15-28 | returns exactly n points; point i has latitude `Latitude(i, n)` in (-1, 1) and the ring coordinates for (i, y); under `OnRing(ring)` every point has `x * x + y * y + z * z == 1` |
| `Palette.Colors` | script.js:34-35 | the declared literal `Declared`, reversed as `colArray.reverse()` does, is `[0x93298e, 0x3954a5, 0x0c9b49, 0xf1eb1b, 0xf99621, 0xed2225]` |
| `Palette.DeclaredReversed` | script.js:34-35 | the reversal of the declared literal is that palette |
| `Palette.MakeColArray` | script.js:34-35 | the declared array, reversed in place, holds `Colors()`, so `colArray[0] == 0x93298e` |
| `Palette.PaletteIndex` | script.js:114 | `floor(numMap(pointIndex, 0, layer, 0, 6))` equals `(6 * pointIndex) / layer` and lies in [0, 6) |
| `Palette.FloorOfRatio` | script.js:114 | the floor of an exact ratio of naturals is their integer quotient |
| `Palette.PaletteIndexMonotone` | script.js:114 | the palette slot never decreases along a shell |
| `Palette.FirstPointColor` | script.js:34-35 | point 0 of every shell gets slot 0, which holds `0x93298e` |
| `Palette.LastPointColor` | script.js:114 | in a shell of at least six points, the last point gets slot 5, which holds `0xed2225` |
| `Palette.EverySlotUsed` | script.js:114 | in a shell of at least six points, every palette slot is used by some point |
| `Palette.DivUnique` | script.js:114 | an integer quotient is fixed by the bracket `q * b <= a < q * b + b` |
| `Palette.Channels` | script.js:113 | the red, green and blue bytes of a colour, high byte first; `ChannelsRoundTrip` proves they are bytes and recombine to the colour |
| `Palette.ChannelsRoundTrip` | script.js:113-115 | the three colour bytes of a palette entry are bytes and recombine to the entry |
| `Cloud.Pow2` | script.js:103 | `pow(2, k)` on natural exponents; `LayerPlanValues` gives the values the plan uses |
| `Cloud.Doubling` | script.js:103 | `range(6).map(...)` yields six counts, entry i being `canvasSize * 2^(i + 1)` |
| `Cloud.LayerPlan` | script.js:103-104 | the plan after `layers.reverse()` has six shells; `LayerPlanAt` and `LayerPlanValues` give its contents |
| `Cloud.LayerPlanAt` | script.js:103-104 | after the reversal, shell k holds `canvasSize * 2^(6 - k)` points |
| `Cloud.LayerPlanValues` | script.js:103-104 | the plan is `[64, 32, 16, 8, 4, 2]` times `canvasSize` |
| `Cloud.LayerPlanNonNegative` | script.js:103 | no shell has a negative count |
| `Cloud.LayerPlanDecreasing` | script.js:103-104 | for `canvasSize > 0` the counts strictly decrease from the first shell to the last |
| `Cloud.LayerPlanSum` | script.js:105 | `amount == sum(layers) == 126 * canvasSize` |
| `Cloud.PlanLayers` | script.js:103-104 | the `map` and then `layers.reverse()` leave the array holding the plan |
| `Cloud.ShellRadius` | script.js:116 | the radius is 140 at shell 0, and would be 260 at shell `layers.length` |
| `Cloud.ShellRadiusOfSix` | script.js:116 | with six shells the radius is `140 + 20 * layerIndex`, within [140, 240] |
| `Cloud.ShellRadiusIncreasing` | script.js:116 | later shells have strictly larger radii |
| `Cloud.Index` | script.js:112 | `slicedSum(layers, layerIndex) + pointIndex`; `IndexInBounds`, `LocateIndex` and `IndexInjective` prove it a one-to-one map onto `[0, amount)` |
| `Cloud.LayerOf` | script.js:112 | finds the shell whose run of triples `[slicedSum(l), slicedSum(l + 1))` contains triple k |
| `Cloud.Locate` | script.js:112 | every triple `k < amount` is the index of some (shell, point) pair of the loops |
| `Cloud.IndexInBounds` | script.js:106-107 | every pair's index lies in `[0, amount)`, so its three slots lie inside both buffers |
| `Cloud.LocateIndex` | script.js:112 | `Locate` inverts the index formula, so the index of a pair leads back to that pair |
| `Cloud.IndexInjective` | script.js:112 | distinct pairs have distinct indices, so no triple is written by two pairs |
| `Cloud.Scale` | script.js:117-119 | the point multiplied by the radius, coordinate by coordinate; `ScaleLength` carries its length |
| `Cloud.ScaleLength` | script.js:117-119 | scaling multiplies the squared length of a point by `radius * radius` |
| `Cloud.Vertex` | script.js:116-119 | the three coordinates of a pair are its sphere point scaled by its shell's radius; `VertexOnShell` and `TriplesAt` carry its properties |
| `Cloud.VertexOnShell` | script.js:116-119 | under `OnRing(ring)`, the scaled point lies on the sphere of the shell's radius |
| `Cloud.Tint` | script.js:113-115 | the colour bytes of a pair: its palette entry, split by `Channels`; `TintBytes` carries its properties |
| `Cloud.TintBytes` | script.js:113-115 | the colour of a pair is palette entry `(6 * pointIndex) / layer`, split into three bytes in [0, 256) |
| `Cloud.PositionBuffer` | script.js:106 | the final `positions` buffer has `3 * amount` slots |
| `Cloud.ColorBuffer` | script.js:107 | the final `colors` buffer has `3 * amount` slots |
| `Cloud.TriplesAt` | script.js:117-121 | the triple at `index * 3` holds the pair's point scaled by the radius and the bytes of its colour |
| `Cloud.PositionOnShell` | script.js:116-120 | under `OnRing(ring)`, the three `positions` slots of every pair hold a point on the sphere of its shell's radius |
| `Cloud.FilledStep` | script.js:120-121 | writing the next triple extends the finished prefix by three slots and leaves the rest zero |
| `Cloud.ToArray` | script.js:120-121 | `toArray(buffer, offset)` changes slots `offset .. offset + 2` and nothing else |
| `Cloud.WriteTriples` | script.js:120-121 | the two `toArray` calls finish triple `index` |
| `Cloud.PointTriples` | script.js:112-119 | the index, scaled vertex and colour the loop body computes are the specified ones for that pair |
| `Cloud.FillShell` | script.js:109-123 | one shell's pass turns its run of triples from zero to final and writes each of its triples once |
| `Cloud.CreateObjects` | script.js:102-123 | the layers hold the plan; both buffers have `3 * 126 * canvasSize` slots and equal `PositionBuffer` and `ColorBuffer`; each triple in `[0, amount)` is written exactly once |

## Left out

- The three.js scene, renderer, camera, `OrbitControls`, bloom and composer passes, `ShaderMaterial` and `Points` object (script.js:47-80, 125-138) are not modelled. They are calls into a library whose code is not part of this model.
- `createGlobe` (script.js:141-156) is not modelled. It loads a texture over the network and builds a mesh.
- `animate`, `render` and `onWindowResize` (script.js:82-100) are not modelled. They are browser event and animation-frame plumbing.
- The `cos`, `sin` and `sqrt` of the spiral and the golden-angle increment `PI * (3 - sqrt(5))` (script.js:17, 21-24) are not computed. They are floating-point trigonometry, so the horizontal coordinates come from the abstract `ring` parameter.
- `Sphere.PointsOnSphere`: unit length is proved only under the hypothesis `OnRing(ring)`, which states the Pythagorean identity of `cos` and `sin`. The golden-angle spacing between consecutive points is not stated.
- Float32 and double rounding are not modelled. The buffers hold exact `real` products, and integers are unbounded. No count in the script comes near 2^53.
- `Palette.Channels` and `Cloud.ColorBuffer` hold the red, green and blue bytes of the palette entry. `THREE.Color` would divide these bytes by 255 to get floats, and that step is not modelled.
- `Helpers.NumMap` requires `sMax != sMin`. With an empty source range the script divides by zero and produces NaN or Infinity, but no call in the script has an empty range.
- `Sphere.PointsOnSphere` uses 0 for `off` when n is 0. The script computes `2 / 0` (Infinity) there, and its loop never reads that value.
- `Palette.PaletteIndex` fixes `colArray.length` at 6, the length of the palette declared at script.js:34.
- `Cloud.CreateObjects` takes the reversed `colArray` as an argument instead of reading a global. It also takes the canvas size, `min(innerWidth, innerHeight)` at script.js:41-42, as a parameter.
