/** Target-dimension arithmetic of `ImageProcessor.resize_to_square`: the
    longer side becomes `size` and the shorter one is scaled by the same
    factor and truncated towards zero (exact arithmetic; see README). */
module Geometry {

  datatype Dims = Dims(width: nat, height: nat)

  /** `dimension or self.target_size`: 0 selects the configured target size. */
  function EffectiveSize(dimension: nat, targetSize: nat): (size: nat)
    ensures size == 0 ==> dimension == 0 && targetSize == 0
    ensures dimension == 0 ==> size == targetSize
    ensures dimension != 0 ==> size == dimension
  {
    if dimension == 0 then targetSize else dimension
  }

  /** `q` is the truncated quotient of `a` by `b`. */
  ghost predicate IsFloorQuotient(q: nat, a: nat, b: nat)
  {
    q * b <= a < (q + 1) * b
  }

  lemma DivIsFloorQuotient(a: nat, b: nat)
    requires b > 0
    ensures IsFloorQuotient(a / b, a, b)
  {
    var q, r := a / b, a % b;
    assert a == q * b + r && 0 <= r < b;
    assert (q + 1) * b == q * b + b;
  }

  /** The single value satisfying `IsFloorQuotient`. */
  lemma FloorQuotientUnique(q1: nat, q2: nat, a: nat, b: nat)
    requires IsFloorQuotient(q1, a, b) && IsFloorQuotient(q2, a, b)
    ensures q1 == q2
  {
    MulMonotone(q1 + 1, q2, b);
    MulMonotone(q2 + 1, q1, b);
  }

  lemma MulMonotone(x: nat, y: nat, b: nat)
    ensures x <= y ==> x * b <= y * b
  {
    if x <= y {
      assert y * b == x * b + (y - x) * b;
    }
  }

  lemma MulStrict(x: nat, y: nat, b: nat)
    ensures x < y && b > 0 ==> x * b < y * b
  {
    if x < y && b > 0 {
      assert y * b == x * b + (y - x) * b;
      MulMonotone(1, y - x, b);
    }
  }

  /** A floor quotient of `shorter * size` by a longer `longer` is below
      `size`, or 0 when `size` is. */
  lemma FloorQuotientBelow(s: nat, shorter: nat, longer: nat, size: nat)
    requires shorter < longer
    requires IsFloorQuotient(s, shorter * size, longer)
    ensures s <= size && (size > 0 ==> s < size)
  {
    MulMonotone(size, s, longer);
    MulMonotone(1, s, longer);
    MulStrict(shorter, longer, size);
    assert longer * size == size * longer;
    assert size == 0 ==> shorter * size == 0;
  }

  /** The shorter side scaled to a longer side of `size`: `int(shorter *
      (size / longer))` in exact arithmetic. */
  function ScaleShorter(shorter: nat, longer: nat, size: nat): nat
    requires shorter < longer
  {
    shorter * size / longer
  }

  lemma ScaleShorterIsFloor(shorter: nat, longer: nat, size: nat)
    requires shorter < longer
    ensures var s := ScaleShorter(shorter, longer, size);
      IsFloorQuotient(s, shorter * size, longer) && s <= size && (size > 0 ==> s < size)
  {
    var product := shorter * size;
    DivIsFloorQuotient(product, longer);
    FloorQuotientBelow(product / longer, shorter, longer, size);
  }

  /** The new `(width, height)` chosen by `resize_to_square` for a source of
      `width` by `height` and a longer side of `size`. */
  function ResizeDims(width: nat, height: nat, size: nat): Dims
  {
    if width > height then Dims(size, ScaleShorter(height, width, size))
    else if height > width then Dims(ScaleShorter(width, height, size), size)
    else Dims(size, size)
  }

  /** The longer side becomes `size`; the shorter one is the truncated exact
      proportion `shorter * size / longer`; a square becomes `size` square. */
  lemma ResizeDimsSpec(width: nat, height: nat, size: nat)
    ensures var d := ResizeDims(width, height, size);
      (width > height ==>
         d.width == size && IsFloorQuotient(d.height, height * size, width)) &&
      (height > width ==>
         d.height == size && IsFloorQuotient(d.width, width * size, height)) &&
      (width == height ==> d == Dims(size, size))
  {
    if width > height {
      ScaleShorterIsFloor(height, width, size);
    } else if height > width {
      ScaleShorterIsFloor(width, height, size);
    }
  }

  /** The result always fits the `size` square and touches it with its longer
      side; a non-square source with `size > 0` stays non-square, with the
      same orientation. */
  lemma ResizeDimsFitsSquare(width: nat, height: nat, size: nat)
    ensures var d := ResizeDims(width, height, size);
      d.width <= size && d.height <= size &&
      (d.width == size || d.height == size) &&
      (size > 0 && width > height ==> d.height < d.width) &&
      (size > 0 && height > width ==> d.width < d.height)
  {
    if width > height {
      ScaleShorterIsFloor(height, width, size);
    } else if height > width {
      ScaleShorterIsFloor(width, height, size);
    }
  }

  /** The truncated side is the largest length that does not exceed the
      exact proportional length: `ResizeDims` is determined by the
      floor-quotient characterisation alone. */
  lemma ResizeDimsUnique(width: nat, height: nat, size: nat, other: Dims)
    requires width > height ==>
      other.width == size && IsFloorQuotient(other.height, height * size, width)
    requires height > width ==>
      other.height == size && IsFloorQuotient(other.width, width * size, height)
    requires width == height ==> other == Dims(size, size)
    ensures other == ResizeDims(width, height, size)
  {
    var d := ResizeDims(width, height, size);
    ResizeDimsSpec(width, height, size);
    if width > height {
      FloorQuotientUnique(other.height, d.height, height * size, width);
    } else if height > width {
      FloorQuotientUnique(other.width, d.width, width * size, height);
    }
  }
}
