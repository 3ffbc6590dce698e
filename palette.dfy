/**
  The point colours of script.js: the six-entry palette `colArray`, reversed
  in place right after it is declared, the choice of a palette entry for a
  point from its position within its shell, and the split of a palette entry
  into the red, green and blue bytes that a colour triple of the buffer holds.
 */
module Palette {

  import opened Helpers

  /** `colArray` as written in the source, before `colArray.reverse()`. */
  const Declared: seq<int> := [0xed2225, 0xf99621, 0xf1eb1b, 0x0c9b49, 0x3954a5, 0x93298e]

  /** The palette as every later line of the script sees it. */
  function Colors(): (p: seq<int>)
    ensures p == [0x93298e, 0x3954a5, 0x0c9b49, 0xf1eb1b, 0xf99621, 0xed2225]
  {
    DeclaredReversed();
    Reversed(Declared)
  }

  lemma DeclaredReversed()
    ensures Reversed(Declared) == [0x93298e, 0x3954a5, 0x0c9b49, 0xf1eb1b, 0xf99621, 0xed2225]
  {
    var expected := [0x93298e, 0x3954a5, 0x0c9b49, 0xf1eb1b, 0xf99621, 0xed2225];
    ReversedAt(Declared, 0);
    ReversedAt(Declared, 1);
    ReversedAt(Declared, 2);
    ReversedAt(Declared, 3);
    ReversedAt(Declared, 4);
    ReversedAt(Declared, 5);
    assert forall k :: 0 <= k < 6 ==> Reversed(Declared)[k] == expected[k];
  }

  /** The declaration of `colArray` followed by `colArray.reverse()`. */
  method MakeColArray() returns (colArray: array<int>)
    ensures fresh(colArray)
    ensures colArray[..] == Colors()
    ensures colArray.Length == 6 && colArray[0] == 0x93298e
  {
    colArray := new int[6](k requires 0 <= k < 6 => Declared[k]);
    assert colArray[..] == Declared;
    ReverseInPlace(colArray);
  }

  /**
    `floor(numMap(pointIndex, 0, layer, 0, colArray.length))`: the palette
    slot of point `pointIndex` of a shell of `layer` points. The shell is cut
    into six runs of (nearly) equal length, one per colour.
   */
  function PaletteIndex(pointIndex: nat, layer: nat): (c: int)
    requires pointIndex < layer
    ensures c == (6 * pointIndex) / layer
    ensures 0 <= c < 6
  {
    var v := NumMap(pointIndex as real, 0.0, layer as real, 0.0, 6.0);
    assert v == (6 * pointIndex) as real / layer as real;
    FloorOfRatio(6 * pointIndex, layer, v);
    v.Floor
  }

  /** The floor of an exact ratio of naturals is their integer quotient. */
  lemma FloorOfRatio(a: nat, b: nat, v: real)
    requires b > 0
    requires v == a as real / b as real
    ensures v.Floor == a / b
  {
    var q, r := a / b, a % b;
    assert a == q * b + r && 0 <= r < b;
    assert a as real == q as real * b as real + r as real;
    assert v == q as real + r as real / b as real;
    assert 0.0 <= r as real / b as real < 1.0;
  }

  /** Colour runs follow the point order: the slot never goes back within a shell. */
  lemma PaletteIndexMonotone(p: nat, p': nat, layer: nat)
    requires p <= p' < layer
    ensures PaletteIndex(p, layer) <= PaletteIndex(p', layer)
  {
    NumMapMonotone(p as real, p' as real, 0.0, layer as real, 0.0, 6.0);
  }

  /** The first point of every shell takes the last declared colour. */
  lemma FirstPointColor(layer: nat)
    requires layer > 0
    ensures PaletteIndex(0, layer) == 0
    ensures Colors()[PaletteIndex(0, layer)] == 0x93298e
  {
  }

  /** In a shell of at least six points the last point takes the last slot. */
  lemma LastPointColor(layer: nat)
    requires layer >= 6
    ensures PaletteIndex(layer - 1, layer) == 5
    ensures Colors()[PaletteIndex(layer - 1, layer)] == 0xed2225
  {
  }

  /** In a shell of at least six points every palette slot is used by some point. */
  lemma EverySlotUsed(layer: nat, c: nat)
    requires layer >= 6 && c < 6
    ensures exists p :: 0 <= p < layer && PaletteIndex(p, layer) == c
  {
    var cl := c * layer;
    var p := (cl + 5) / 6;
    assert cl <= 6 * p <= cl + 5;
    MulStep(c, layer);
    assert cl + 5 < cl + layer;
    assert p < layer by {
      MulBound(c, layer);
    }
    DivUnique(6 * p, layer, c);
    assert PaletteIndex(p, layer) == c;
  }

  lemma MulStep(c: int, b: int)
    ensures (c + 1) * b == c * b + b
  {
  }

  lemma MulBound(c: nat, b: nat)
    requires c < 6
    ensures c * b <= 5 * b
  {
  }

  /** A quotient is determined by the bracket it falls into. */
  lemma DivUnique(a: int, b: int, q: int)
    requires b > 0 && q * b <= a < q * b + b
    ensures a / b == q
  {
    var q', r' := a / b, a % b;
    assert a == q' * b + r' && 0 <= r' < b;
    if q' < q {
      MulMonotone(q' + 1, q, b);
      MulStep(q', b);
    } else if q < q' {
      MulMonotone(q + 1, q', b);
      MulStep(q, b);
    }
  }

  lemma MulMonotone(x: int, y: int, b: int)
    requires x <= y && b > 0
    ensures x * b <= y * b
  {
  }

  /** The red, green and blue bytes of a 24-bit colour, as `new THREE.Color(hex)` reads them. */
  function Channels(hex: int): (rgb: seq<int>)
  {
    [hex / 0x10000 % 0x100, hex / 0x100 % 0x100, hex % 0x100]
  }

  /** The three bytes are bytes and give back the colour they were read from. */
  lemma ChannelsRoundTrip(hex: int)
    requires 0 <= hex < 0x1000000
    ensures forall k :: 0 <= k < 3 ==> 0 <= Channels(hex)[k] < 0x100
    ensures Channels(hex)[0] * 0x10000 + Channels(hex)[1] * 0x100 + Channels(hex)[2] == hex
  {
  }
}
