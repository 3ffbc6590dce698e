/**
  `createObjects()` of script.js, without the three.js calls: the plan of six
  shells, the two flat buffers of `3 * amount` slots, and the nested loops
  that write the position and the colour of every point of every shell into
  its own triple of slots.
 */
module Cloud {

  import opened Helpers
  import opened Sphere
  import opened Palette

  /** `pow(2, k)`; every exponent in the script is a small natural number. */
  function Pow2(k: nat): nat
  {
    if k == 0 then 1 else 2 * Pow2(k - 1)
  }

  /** The counts before the reversal: entry i of `range(6)` becomes `canvasSize * 2^(i + 1)`. */
  function Doubling(canvasSize: nat): (r: seq<int>)
    ensures |r| == 6
    ensures forall k :: 0 <= k < 6 ==> r[k] == canvasSize * Pow2(k + 1)
  {
    var r := Range(6);
    seq(6, k requires 0 <= k < 6 => canvasSize * Pow2(r[k] + 1))
  }

  /** The point counts of the six shells once `layers.reverse()` has run. */
  function LayerPlan(canvasSize: nat): (plan: seq<int>)
    ensures |plan| == 6
  {
    Reversed(Doubling(canvasSize))
  }

  /** Shell k holds `canvasSize * 2^(6 - k)` points: the first-listed shell is the densest. */
  lemma LayerPlanAt(canvasSize: nat, k: nat)
    requires k < 6
    ensures |LayerPlan(canvasSize)| == 6
    ensures LayerPlan(canvasSize)[k] == canvasSize * Pow2(6 - k)
  {
    ReversedAt(Doubling(canvasSize), k);
  }

  /** The plan written out: 64, 32, 16, 8, 4 and 2 times the canvas size. */
  lemma LayerPlanValues(canvasSize: nat)
    ensures LayerPlan(canvasSize)
         == [64 * canvasSize, 32 * canvasSize, 16 * canvasSize, 8 * canvasSize, 4 * canvasSize, 2 * canvasSize]
  {
    var c := canvasSize;
    LayerPlanAt(c, 0);
    LayerPlanAt(c, 1);
    LayerPlanAt(c, 2);
    LayerPlanAt(c, 3);
    LayerPlanAt(c, 4);
    LayerPlanAt(c, 5);
    var expected := [64 * c, 32 * c, 16 * c, 8 * c, 4 * c, 2 * c];
    assert forall k :: 0 <= k < 6 ==> LayerPlan(c)[k] == expected[k];
  }

  /** No shell has a negative count. */
  lemma LayerPlanNonNegative(canvasSize: nat)
    ensures NonNegative(LayerPlan(canvasSize))
  {
    LayerPlanValues(canvasSize);
  }

  /** For a non-empty canvas the counts strictly decrease from the first shell to the last. */
  lemma LayerPlanDecreasing(canvasSize: nat, j: nat, k: nat)
    requires canvasSize > 0
    requires j < k < 6
    ensures |LayerPlan(canvasSize)| == 6 && LayerPlan(canvasSize)[j] > LayerPlan(canvasSize)[k]
  {
    LayerPlanValues(canvasSize);
  }

  /** `amount = sum(layers)` is 126 times the canvas size. */
  lemma LayerPlanSum(canvasSize: nat)
    ensures Sum(LayerPlan(canvasSize)) == 126 * canvasSize
  {
    var c := canvasSize;
    LayerPlanValues(c);
    var plan := LayerPlan(c);
    assert plan == [64 * c, 32 * c, 16 * c] + [8 * c, 4 * c, 2 * c];
    SumAppend([64 * c, 32 * c, 16 * c], [8 * c, 4 * c, 2 * c]);
    assert [64 * c, 32 * c, 16 * c] == [64 * c] + [32 * c, 16 * c];
    SumAppend([64 * c], [32 * c, 16 * c]);
    assert [8 * c, 4 * c, 2 * c] == [8 * c] + [4 * c, 2 * c];
    SumAppend([8 * c], [4 * c, 2 * c]);
  }

  /** Lines 103-104 of the script: the doubling counts, then `layers.reverse()`. */
  method PlanLayers(canvasSize: nat) returns (layers: array<int>)
    ensures fresh(layers)
    ensures layers[..] == LayerPlan(canvasSize)
  {
    var r := Range(6);
    layers := new int[6](k requires 0 <= k < 6 => canvasSize * Pow2(r[k] + 1));
    assert layers[..] == Doubling(canvasSize);
    ReverseInPlace(layers);
  }

  /** `140 + numMap(layerIndex, 0, layers.length, 0, 120)`: the radius of a shell. */
  function ShellRadius(layerIndex: nat, layerCount: nat): (radius: real)
    requires layerCount > 0
    ensures layerIndex == 0 ==> radius == 140.0
    ensures layerIndex == layerCount ==> radius == 260.0
  {
    140.0 + NumMap(layerIndex as real, 0.0, layerCount as real, 0.0, 120.0)
  }

  /** With the script's six shells, the radius grows by 20 per shell, from 140 to 240. */
  lemma ShellRadiusOfSix(layerIndex: nat)
    requires layerIndex < 6
    ensures ShellRadius(layerIndex, 6) == 140.0 + 20.0 * layerIndex as real
    ensures 140.0 <= ShellRadius(layerIndex, 6) <= 240.0
  {
  }

  /** Later shells are strictly larger. */
  lemma ShellRadiusIncreasing(j: nat, k: nat, layerCount: nat)
    requires j < k && layerCount > 0
    ensures ShellRadius(j, layerCount) < ShellRadius(k, layerCount)
  {
    NumMapStrictlyIncreasing(j as real, k as real, 0.0, layerCount as real, 0.0, 120.0);
  }

  /** `slicedSum(layers, layerIndex) + pointIndex`: the triple that point `pointIndex` of shell `layerIndex` writes. */
  function Index(plan: seq<int>, layerIndex: nat, pointIndex: nat): int
  {
    SlicedSum(plan, layerIndex) + pointIndex
  }

  /** A (shell, point) pair of the nested loops. */
  datatype Owner = Owner(layerIndex: nat, pointIndex: nat)

  ghost predicate InPlan(plan: seq<int>, layerIndex: nat, pointIndex: nat)
  {
    layerIndex < |plan| && pointIndex < plan[layerIndex]
  }

  /** The shell, at or after `from`, whose run of triples contains triple `k`. */
  function LayerOf(plan: seq<int>, k: int, from: nat): (l: nat)
    requires SlicedSum(plan, from) <= k < Sum(plan)
    ensures from <= l < |plan|
    ensures SlicedSum(plan, l) <= k < SlicedSum(plan, l + 1)
    decreases |plan| - from
  {
    SlicedSumPastEnd(plan, from);
    SlicedSumPastEnd(plan, from + 1);
    if k < SlicedSum(plan, from + 1) then from else LayerOf(plan, k, from + 1)
  }

  /** The pair of the nested loops that writes triple `k`: the inverse of `Index`. */
  function Locate(plan: seq<int>, k: int): (at: Owner)
    requires 0 <= k < Sum(plan)
    ensures InPlan(plan, at.layerIndex, at.pointIndex)
    ensures Index(plan, at.layerIndex, at.pointIndex) == k
  {
    SlicedSumEnds(plan);
    var l := LayerOf(plan, k, 0);
    SlicedSumStep(plan, l);
    Owner(l, k - SlicedSum(plan, l))
  }

  /** Every pair of the nested loops writes a triple inside the buffers. */
  lemma IndexInBounds(plan: seq<int>, layerIndex: nat, pointIndex: nat)
    requires NonNegative(plan)
    requires InPlan(plan, layerIndex, pointIndex)
    ensures 0 <= Index(plan, layerIndex, pointIndex) < Sum(plan)
  {
    SlicedSumEnds(plan);
    SlicedSumMonotone(plan, 0, layerIndex);
    SlicedSumStep(plan, layerIndex);
    SlicedSumMonotone(plan, layerIndex + 1, |plan|);
  }

  /** `Locate` undoes `Index`: the triple of a pair leads back to that pair. */
  lemma LocateIndex(plan: seq<int>, layerIndex: nat, pointIndex: nat)
    requires NonNegative(plan)
    requires InPlan(plan, layerIndex, pointIndex)
    ensures 0 <= Index(plan, layerIndex, pointIndex) < Sum(plan)
    ensures Locate(plan, Index(plan, layerIndex, pointIndex)) == Owner(layerIndex, pointIndex)
  {
    IndexInBounds(plan, layerIndex, pointIndex);
    var k := Index(plan, layerIndex, pointIndex);
    var at := Locate(plan, k);
    var l := at.layerIndex;
    SlicedSumStep(plan, layerIndex);
    if l < layerIndex {
      SlicedSumMonotone(plan, l + 1, layerIndex);
    } else if layerIndex < l {
      SlicedSumMonotone(plan, layerIndex + 1, l);
    }
  }

  /** Distinct pairs write distinct triples, so no triple is written twice. */
  lemma IndexInjective(plan: seq<int>, l: nat, p: nat, l': nat, p': nat)
    requires NonNegative(plan)
    requires InPlan(plan, l, p) && InPlan(plan, l', p')
    requires Index(plan, l, p) == Index(plan, l', p')
    ensures l == l' && p == p'
  {
    LocateIndex(plan, l, p);
    LocateIndex(plan, l', p');
  }

  /** The coordinates of point `pointIndex` of shell `layerIndex`, scaled by the shell's radius. */
  function Vertex(plan: seq<int>, layerIndex: nat, pointIndex: nat, ring: Ring): seq<real>
    requires layerIndex < |plan| && pointIndex < plan[layerIndex]
  {
    Scale(ShellRadius(layerIndex, |plan|), SpherePoint(pointIndex, plan[layerIndex], ring))
  }

  /** A point multiplied by the radius, coordinate by coordinate. */
  function Scale(radius: real, pt: Point3): seq<real>
  {
    [radius * pt.x, radius * pt.y, radius * pt.z]
  }

  /** The squared length of a coordinate triple. */
  function SquaredLength(v: seq<real>): real
    requires |v| == 3
  {
    v[0] * v[0] + v[1] * v[1] + v[2] * v[2]
  }

  /** Scaling multiplies the squared length of a point by `radius * radius`. */
  lemma ScaleLength(radius: real, pt: Point3)
    ensures SquaredLength(Scale(radius, pt)) == radius * radius * (pt.x * pt.x + pt.y * pt.y + pt.z * pt.z)
  {
  }

  /**
    When the ring is a true circle, every point of shell `layerIndex` lies on
    the sphere whose radius is the shell's radius.
   */
  lemma VertexOnShell(plan: seq<int>, layerIndex: nat, pointIndex: nat, ring: Ring)
    requires layerIndex < |plan| && pointIndex < plan[layerIndex]
    requires OnRing(ring)
    ensures SquaredLength(Vertex(plan, layerIndex, pointIndex, ring))
         == ShellRadius(layerIndex, |plan|) * ShellRadius(layerIndex, |plan|)
  {
    ScaleLength(ShellRadius(layerIndex, |plan|), SpherePoint(pointIndex, plan[layerIndex], ring));
  }

  /** The colour bytes of point `pointIndex` of shell `layerIndex`. */
  function Tint(plan: seq<int>, layerIndex: nat, pointIndex: nat): seq<int>
    requires layerIndex < |plan| && pointIndex < plan[layerIndex]
  {
    Channels(Colors()[PaletteIndex(pointIndex, plan[layerIndex])])
  }

  /** A point takes the palette entry `(6 * pointIndex) / layer`, as three bytes. */
  lemma TintBytes(plan: seq<int>, layerIndex: nat, pointIndex: nat)
    requires layerIndex < |plan| && pointIndex < plan[layerIndex]
    ensures Tint(plan, layerIndex, pointIndex) == Channels(Colors()[(6 * pointIndex) / plan[layerIndex]])
    ensures forall k :: 0 <= k < 3 ==> 0 <= Tint(plan, layerIndex, pointIndex)[k] < 0x100
  {
    ChannelsRoundTrip(Colors()[PaletteIndex(pointIndex, plan[layerIndex])]);
  }

  /** The finished `positions` buffer: slot s holds coordinate s % 3 of the pair owning triple s / 3. */
  function PositionBuffer(plan: seq<int>, ring: Ring): (buf: seq<real>)
    requires NonNegative(plan)
    ensures |buf| == 3 * Sum(plan)
  {
    SumNonNegative(plan);
    seq(3 * Sum(plan), s requires 0 <= s < 3 * Sum(plan) =>
      var at := Locate(plan, s / 3);
      Vertex(plan, at.layerIndex, at.pointIndex, ring)[s % 3])
  }

  /** The finished `colors` buffer: slot s holds byte s % 3 of the colour of the pair owning triple s / 3. */
  function ColorBuffer(plan: seq<int>): (buf: seq<int>)
    requires NonNegative(plan)
    ensures |buf| == 3 * Sum(plan)
  {
    SumNonNegative(plan);
    seq(3 * Sum(plan), s requires 0 <= s < 3 * Sum(plan) =>
      var at := Locate(plan, s / 3);
      Tint(plan, at.layerIndex, at.pointIndex)[s % 3])
  }

  /** The triple of a pair holds, in order, its three coordinates and its three colour bytes. */
  lemma TriplesAt(plan: seq<int>, ring: Ring, layerIndex: nat, pointIndex: nat)
    requires NonNegative(plan)
    requires InPlan(plan, layerIndex, pointIndex)
    ensures 0 <= 3 * Index(plan, layerIndex, pointIndex) && 3 * Index(plan, layerIndex, pointIndex) + 3 <= |PositionBuffer(plan, ring)|
    ensures |ColorBuffer(plan)| == |PositionBuffer(plan, ring)|
    ensures PositionBuffer(plan, ring)[3 * Index(plan, layerIndex, pointIndex)..3 * Index(plan, layerIndex, pointIndex) + 3]
         == Vertex(plan, layerIndex, pointIndex, ring)
    ensures ColorBuffer(plan)[3 * Index(plan, layerIndex, pointIndex)..3 * Index(plan, layerIndex, pointIndex) + 3]
         == Tint(plan, layerIndex, pointIndex)
  {
    LocateIndex(plan, layerIndex, pointIndex);
    var k := Index(plan, layerIndex, pointIndex);
    var posBuf, colBuf := PositionBuffer(plan, ring), ColorBuffer(plan);
    assert (3 * k) / 3 == k && (3 * k + 1) / 3 == k && (3 * k + 2) / 3 == k;
    assert (3 * k) % 3 == 0 && (3 * k + 1) % 3 == 1 && (3 * k + 2) % 3 == 2;
    SliceOfThree(posBuf, 3 * k, Vertex(plan, layerIndex, pointIndex, ring));
    SliceOfThree(colBuf, 3 * k, Tint(plan, layerIndex, pointIndex));
  }

  /**
    When the ring is a true circle, the three `positions` slots of every point
    hold a point on the sphere of its shell's radius.
   */
  lemma PositionOnShell(plan: seq<int>, ring: Ring, layerIndex: nat, pointIndex: nat)
    requires NonNegative(plan) && InPlan(plan, layerIndex, pointIndex) && OnRing(ring)
    ensures 0 <= 3 * Index(plan, layerIndex, pointIndex)
            && 3 * Index(plan, layerIndex, pointIndex) + 3 <= |PositionBuffer(plan, ring)|
    ensures SquaredLength(PositionBuffer(plan, ring)[3 * Index(plan, layerIndex, pointIndex)..3 * Index(plan, layerIndex, pointIndex) + 3])
         == ShellRadius(layerIndex, |plan|) * ShellRadius(layerIndex, |plan|)
  {
    TriplesAt(plan, ring, layerIndex, pointIndex);
    VertexOnShell(plan, layerIndex, pointIndex, ring);
  }

  lemma SliceOfThree<T>(buf: seq<T>, k: nat, v: seq<T>)
    requires |v| == 3 && k + 3 <= |buf|
    requires buf[k] == v[0] && buf[k + 1] == v[1] && buf[k + 2] == v[2]
    ensures buf[k..k + 3] == v
  {
  }

  /** `positions[..3 * done]` and `colors[..3 * done]` are final; every later slot is still zero. */
  ghost predicate FilledUpTo(positions: seq<real>, colors: seq<int>, posBuf: seq<real>, colBuf: seq<int>, done: int)
  {
    && |positions| == |posBuf| && |colors| == |colBuf|
    && 0 <= 3 * done <= |positions| && 3 * done <= |colors|
    && (forall s :: 0 <= s < 3 * done ==> positions[s] == posBuf[s])
    && (forall s :: 3 * done <= s < |positions| ==> positions[s] == 0.0)
    && (forall s :: 0 <= s < 3 * done ==> colors[s] == colBuf[s])
    && (forall s :: 3 * done <= s < |colors| ==> colors[s] == 0)
  }

  /** Writing the final values of triple `done` extends the finished prefix by one triple. */
  lemma FilledStep(positions: seq<real>, colors: seq<int>, posBuf: seq<real>, colBuf: seq<int>, done: nat)
    requires FilledUpTo(positions, colors, posBuf, colBuf, done)
    requires 3 * done + 3 <= |positions| && 3 * done + 3 <= |colors|
    ensures FilledUpTo(positions[..3 * done] + posBuf[3 * done..3 * done + 3] + positions[3 * done + 3..],
                       colors[..3 * done] + colBuf[3 * done..3 * done + 3] + colors[3 * done + 3..],
                       posBuf, colBuf, done + 1)
  {
  }

  /** `vertex.toArray(positions, offset)` and `color.toArray(colors, offset)`: three slots from `offset` on. */
  method ToArray<T>(triple: seq<T>, a: array<T>, offset: nat)
    requires |triple| == 3 && offset + 3 <= a.Length
    modifies a
    ensures a[..] == old(a[..])[..offset] + triple + old(a[..])[offset + 3..]
  {
    a[offset] := triple[0];
    a[offset + 1] := triple[1];
    a[offset + 2] := triple[2];
  }

  /** Lines 120-121 of the script: the two `toArray` calls, which finish triple `index`. */
  method WriteTriples(vertex: seq<real>, tint: seq<int>, positions: array<real>, colors: array<int>, index: nat,
                      ghost posBuf: seq<real>, ghost colBuf: seq<int>)
    requires FilledUpTo(positions[..], colors[..], posBuf, colBuf, index)
    requires 3 * index + 3 <= |posBuf| && 3 * index + 3 <= |colBuf|
    requires vertex == posBuf[3 * index..3 * index + 3] && tint == colBuf[3 * index..3 * index + 3]
    modifies positions, colors
    ensures FilledUpTo(positions[..], colors[..], posBuf, colBuf, index + 1)
  {
    FilledStep(positions[..], colors[..], posBuf, colBuf, index);
    ToArray(vertex, positions, index * 3);
    ToArray(tint, colors, index * 3);
  }

  /**
    The body of `points.forEach` up to the writes: the triple `index` of the
    point, its scaled coordinates and its colour bytes.
   */
  method PointTriples(layers: array<int>, layerIndex: nat, layer: nat, points: seq<Point3>, pointIndex: nat,
                      colArray: array<int>, ring: Ring)
    returns (index: int, vertex: seq<real>, tint: seq<int>)
    requires layerIndex < layers.Length && layers[layerIndex] == layer
    requires pointIndex < |points| == layer
    requires forall i :: 0 <= i < layer ==> points[i] == SpherePoint(i, layer, ring)
    requires colArray[..] == Colors()
    ensures index == Index(layers[..], layerIndex, pointIndex)
    ensures vertex == Vertex(layers[..], layerIndex, pointIndex, ring)
    ensures tint == Tint(layers[..], layerIndex, pointIndex)
  {
    index := SlicedSum(layers[..], layerIndex) + pointIndex;
    var color := colArray[PaletteIndex(pointIndex, layer)];
    var radius := ShellRadius(layerIndex, layers.Length);
    var pt := points[pointIndex];
    vertex := Scale(radius, pt);
    tint := Channels(color);
  }

  /**
    One pass of `layers.forEach`: for every point of `pointsOnSphere(layer)`,
    the scaled point and its colour go to triple `slicedSum(layers,
    layerIndex) + pointIndex`. The shell's run of triples, and nothing else,
    goes from zero to final, and each of its triples is written once.
   */
  method FillShell(layers: array<int>, layerIndex: nat, colArray: array<int>, ring: Ring,
                   positions: array<real>, colors: array<int>, ghost writesBefore: multiset<int>)
    returns (ghost writes: multiset<int>)
    requires layerIndex < layers.Length && NonNegative(layers[..])
    requires colArray[..] == Colors()
    requires colors != colArray && colors != layers
    requires FilledUpTo(positions[..], colors[..], PositionBuffer(layers[..], ring), ColorBuffer(layers[..]),
                        SlicedSum(layers[..], layerIndex))
    modifies positions, colors
    ensures FilledUpTo(positions[..], colors[..], PositionBuffer(layers[..], ring), ColorBuffer(layers[..]),
                       SlicedSum(layers[..], layerIndex + 1))
    ensures forall k :: writes[k] == writesBefore[k] + (if SlicedSum(layers[..], layerIndex) <= k < SlicedSum(layers[..], layerIndex + 1) then 1 else 0)
  {
    ghost var plan := layers[..];
    ghost var posBuf := PositionBuffer(plan, ring);
    ghost var colBuf := ColorBuffer(plan);
    writes := writesBefore;
    var layer := layers[layerIndex];
    var points := PointsOnSphere(layer, ring);
    SlicedSumStep(plan, layerIndex);
    var pointIndex := 0;
    while pointIndex < |points|
      invariant 0 <= pointIndex <= |points| == layer
      invariant FilledUpTo(positions[..], colors[..], posBuf, colBuf, Index(plan, layerIndex, pointIndex))
      invariant forall k :: writes[k] == writesBefore[k] + (if SlicedSum(plan, layerIndex) <= k < Index(plan, layerIndex, pointIndex) then 1 else 0)
    {
      var index, vertex, tint := PointTriples(layers, layerIndex, layer, points, pointIndex, colArray, ring);
      TriplesAt(plan, ring, layerIndex, pointIndex);
      WriteTriples(vertex, tint, positions, colors, index, posBuf, colBuf);
      writes := writes + multiset{index};
      pointIndex := pointIndex + 1;
    }
  }

  /**
    `createObjects()` without the three.js objects: plans the shells, then
    fills the two buffers shell by shell. The ghost `writes` records every
    triple written; each one of the `amount` triples is written exactly once.
   */
  method CreateObjects(canvasSize: nat, colArray: array<int>, ring: Ring)
    returns (layers: array<int>, positions: array<real>, colors: array<int>, ghost writes: multiset<int>)
    requires colArray[..] == Colors()
    ensures fresh(layers) && fresh(positions) && fresh(colors)
    ensures layers[..] == LayerPlan(canvasSize) && NonNegative(layers[..])
    ensures positions.Length == colors.Length == 3 * (126 * canvasSize)
    ensures positions[..] == PositionBuffer(layers[..], ring)
    ensures colors[..] == ColorBuffer(layers[..])
    ensures forall k :: writes[k] == if 0 <= k < 126 * canvasSize then 1 else 0
  {
    layers := PlanLayers(canvasSize);
    ghost var plan := layers[..];
    LayerPlanNonNegative(canvasSize);
    LayerPlanSum(canvasSize);
    var amount := Sum(layers[..]);
    positions := new real[amount * 3](_ => 0.0);
    colors := new int[amount * 3](_ => 0);
    writes := multiset{};
    SlicedSumEnds(plan);
    var layerIndex := 0;
    while layerIndex < layers.Length
      invariant 0 <= layerIndex <= layers.Length == 6
      invariant layers[..] == plan
      invariant FilledUpTo(positions[..], colors[..], PositionBuffer(plan, ring), ColorBuffer(plan),
                           SlicedSum(plan, layerIndex))
      invariant forall k :: writes[k] == if 0 <= k < SlicedSum(plan, layerIndex) then 1 else 0
    {
      SlicedSumStep(plan, layerIndex);
      writes := FillShell(layers, layerIndex, colArray, ring, positions, colors, writes);
      layerIndex := layerIndex + 1;
    }
    assert positions[..] == PositionBuffer(plan, ring);
    assert colors[..] == ColorBuffer(plan);
  }
}
