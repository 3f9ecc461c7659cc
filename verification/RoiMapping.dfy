/**
 `mapped_output_roi` of tools/eye_decisions.py: the output pixels that a region of the input maps to, in exact rational
 arithmetic.
 */
module RoiMapping {
  import opened Prelude

  /** Left and top corner, width and height. */
  datatype Roi = Roi(x: int, y: int, w: int, h: int)

  datatype Extent = Extent(w: int, h: int)

  datatype RoiError = NoCapturedPixels

  /** The least integer not below a / b. */
  function CeilDiv(a: int, b: int): int
    requires b > 0
  {
    -((-a) / b)
  }

  lemma CeilDivIsLeast(a: int, b: int, n: int)
    requires b > 0
    ensures CeilDiv(a, b) <= n <==> a <= n * b
  {
    var q := (-a) / b;
    assert q * b <= -a < q * b + b;
    if -q <= n {
      assert -q * b <= n * b;
    } else {
      assert n * b <= (-q - 1) * b;
      assert (-q - 1) * b == -q * b - b;
    }
  }

  /**
   The first pixel of the crop at `start` whose centre is not left of the input edge, scaled from the input's size to
   the output's.
   */
  function Edge(edge: int, input: int, output: int, start: int): int
    requires input > 0
  {
    CeilDiv(2 * edge * output - (2 * start + 1) * input, 2 * input)
  }

  /** The output pixels inside the input region, relative to the output crop. */
  function Mapped(roi: Roi, decision: Roi, input: Extent, output: Extent, crop: Roi): Result<Roi, RoiError>
    requires input.w > 0 && input.h > 0
  {
    var left := Greatest(0, Edge(decision.x + roi.x, input.w, output.w, crop.x));
    var top := Greatest(0, Edge(decision.y + roi.y, input.h, output.h, crop.y));
    var right := Least(crop.w, Edge(decision.x + roi.x + roi.w, input.w, output.w, crop.x));
    var bottom := Least(crop.h, Edge(decision.y + roi.y + roi.h, input.h, output.h, crop.y));
    if right <= left || bottom <= top then Err(NoCapturedPixels) else Ok(Roi(left, top, right - left, bottom - top))
  }

  // ---------------------------------------------------------------- which pixels are mapped

  /**
   The centre of output pixel p, start + p + 1/2, is at or past the scaled edge: both sides times twice the input's
   size.
   */
  predicate Past(edge: int, input: int, output: int, start: int, p: int) {
    2 * edge * output <= (2 * (start + p) + 1) * input
  }

  /** The centre lies in the half-open scaled interval of `length` from `from`. */
  predicate Inside(from: int, length: int, input: int, output: int, start: int, p: int) {
    Past(from, input, output, start, p) && !Past(from + length, input, output, start, p)
  }

  /** An output pixel of the crop whose centre lies in the input region. */
  predicate Centred(roi: Roi, decision: Roi, input: Extent, output: Extent, crop: Roi, px: int, py: int) {
    0 <= px < crop.w && 0 <= py < crop.h &&
    Inside(decision.x + roi.x, roi.w, input.w, output.w, crop.x, px) && Inside(decision.y + roi.y, roi.h, input.h,
        output.h, crop.y, py)
  }

  predicate Covers(r: Roi, px: int, py: int) { r.x <= px < r.x + r.w && r.y <= py < r.y + r.h }

  lemma EdgeIsFirst(edge: int, input: int, output: int, start: int, p: int)
    requires input > 0
    ensures Edge(edge, input, output, start) <= p <==> Past(edge, input, output, start, p)
  {
    CeilDivIsLeast(2 * edge * output - (2 * start + 1) * input, 2 * input, p);
    assert (2 * (start + p) + 1) * input == (2 * start + 1) * input + p * (2 * input);
  }

  /** The output pixels mapped are exactly those of the crop whose centres lie in the input region. */
  lemma MappedIffCentred(roi: Roi, decision: Roi, input: Extent, output: Extent, crop: Roi, px: int, py: int)
    requires input.w > 0 && input.h > 0
    ensures Centred(roi, decision, input, output, crop, px, py) <==>
      Mapped(roi, decision, input, output, crop).Ok? && Covers(Mapped(roi, decision, input, output, crop).value, px, py)
  {
    hide Edge, Past;
    EdgeIsFirst(decision.x + roi.x, input.w, output.w, crop.x, px);
    EdgeIsFirst(decision.x + roi.x + roi.w, input.w, output.w, crop.x, px);
    EdgeIsFirst(decision.y + roi.y, input.h, output.h, crop.y, py);
    EdgeIsFirst(decision.y + roi.y + roi.h, input.h, output.h, crop.y, py);
  }

  /** A region is refused exactly when the centre of no pixel of the crop lies in it; what is mapped is never empty. */
  lemma RefusedIffNoneCentred(roi: Roi, decision: Roi, input: Extent, output: Extent, crop: Roi)
    requires input.w > 0 && input.h > 0
    ensures Mapped(roi, decision, input, output, crop).Err? <==>
      forall px, py :: !Centred(roi, decision, input, output, crop, px, py)
  {
    hide Edge, Centred;
    var r := Mapped(roi, decision, input, output, crop);
    forall px, py
      ensures Centred(roi, decision, input, output, crop, px, py) <==> r.Ok? && Covers(r.value, px, py)
    {
      MappedIffCentred(roi, decision, input, output, crop, px, py);
    }
    if r.Ok? {
      assert Covers(r.value, r.value.x, r.value.y);
      assert Centred(roi, decision, input, output, crop, r.value.x, r.value.y);
    }
  }

  lemma PastIsMonotone(edge: int, further: nat, input: int, output: int, start: int, p: int)
    requires output >= 0 && Past(edge + further, input, output, start, p)
    ensures Past(edge, input, output, start, p)
  {
    assert 2 * (edge + further) * output == 2 * edge * output + 2 * (further * output);
    assert further * output >= 0;
  }

  /** The region an interval of widths a and b splits into, side by side. */
  function SplitAcross(roi: Roi, a: nat, b: nat): (Roi, Roi) { (roi.(w := a), roi.(x := roi.x + a, w := b)) }

  function SplitDown(roi: Roi, a: nat, b: nat): (Roi, Roi) { (roi.(h := a), roi.(y := roi.y + a, h := b)) }

  /** A pixel is mapped from the whole exactly when it is mapped from one of the parts. */
  ghost predicate Partitions(whole: Roi, parts: (Roi, Roi), decision: Roi, input: Extent, output: Extent, crop: Roi,
      px: int, py: int) {
    var first, second :=
      Centred(parts.0, decision, input, output, crop, px, py), Centred(parts.1, decision, input, output, crop, px, py);
    !(first && second) && (Centred(whole, decision, input, output, crop, px, py) <==> first || second)
  }

  /** Adjoining regions map to disjoint sets of pixels that together are the pixels of their union. */
  lemma AdjoiningRegionsPartition(roi: Roi, a: nat, b: nat, decision: Roi, input: Extent, output: Extent, crop: Roi,
      px: int, py: int)
    requires input.w > 0 && input.h > 0 && output.w >= 0 && output.h >= 0
    ensures roi.w == a + b ==> Partitions(roi, SplitAcross(roi, a, b), decision, input, output, crop, px, py)
    ensures roi.h == a + b ==> Partitions(roi, SplitDown(roi, a, b), decision, input, output, crop, px, py)
  {
    hide Past;
    var x, y := decision.x + roi.x, decision.y + roi.y;
    if Past(x + a + b, input.w, output.w, crop.x, px) {
      PastIsMonotone(x + a, b, input.w, output.w, crop.x, px);
    }
    if Past(x + a, input.w, output.w, crop.x, px) {
      PastIsMonotone(x, a, input.w, output.w, crop.x, px);
    }
    if Past(y + a + b, input.h, output.h, crop.y, py) {
      PastIsMonotone(y + a, b, input.h, output.h, crop.y, py);
    }
    if Past(y + a, input.h, output.h, crop.y, py) {
      PastIsMonotone(y, a, input.h, output.h, crop.y, py);
    }
    assert decision.x + (roi.x + a) == x + a && decision.y + (roi.y + a) == y + a;
  }
}
