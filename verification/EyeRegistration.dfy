/**
 The registration of two eyes' images in tools/diff_eye_split.py: the depth route that measures how far eye 1's
 content has to move to land on eye 0's, and the tile comparison made at that shift. Floats are reals.
 */
module EyeRegistration {
  import opened Prelude

  // ---------------------------------------------------------------- sums over a range

  function Sum(f: int -> real, lo: int, hi: int): real
    decreases hi - lo
  {
    if lo >= hi then 0.0 else Sum(f, lo, hi - 1) + f(hi - 1)
  }

  lemma SumSame(f: int -> real, g: int -> real, lo: int, hi: int)
    requires forall i :: lo <= i < hi ==> f(i) == g(i)
    ensures Sum(f, lo, hi) == Sum(g, lo, hi)
    decreases hi - lo
  {
  }

  lemma SumOfZeros(f: int -> real, lo: int, hi: int)
    requires forall i :: lo <= i < hi ==> f(i) == 0.0
    ensures Sum(f, lo, hi) == 0.0
    decreases hi - lo
  {
  }

  lemma {:induction false} SumSplit(f: int -> real, lo: int, mid: int, hi: int)
    requires lo <= mid <= hi
    ensures Sum(f, lo, hi) == Sum(f, lo, mid) + Sum(f, mid, hi)
    decreases hi - mid
  {
    if mid < hi {
      SumSplit(f, lo, mid, hi - 1);
    }
  }

  lemma {:induction false} SumShift(f: int -> real, g: int -> real, lo: int, hi: int, d: int)
    requires forall i :: lo <= i < hi ==> g(i) == f(i + d)
    ensures Sum(g, lo, hi) == Sum(f, lo + d, hi + d)
    decreases hi - lo
  {
    if lo < hi {
      SumShift(f, g, lo, hi - 1, d);
    }
  }

  lemma {:induction false} SumCombine(f: int -> real, g: int -> real, k: real, s: int -> real, lo: int, hi: int)
    requires forall i :: lo <= i < hi ==> s(i) == f(i) + k * g(i)
    ensures Sum(s, lo, hi) == Sum(f, lo, hi) + k * Sum(g, lo, hi)
    decreases hi - lo
  {
    if lo < hi {
      SumCombine(f, g, k, s, lo, hi - 1);
    }
  }

  ghost predicate ZeroOutside(f: int -> real, n: nat) {
    forall i :: i < 0 || n <= i ==> f(i) == 0.0
  }

  /** g is f moved by d, position by position. */
  ghost predicate Follows(f: int -> real, g: int -> real, d: int) {
    forall i :: g(i) == f(i + d)
  }

  /** The sum over a wider range of a function that stays inside 0..n. */
  lemma SumWider(f: int -> real, n: nat, lo: int, hi: int)
    requires ZeroOutside(f, n) && lo <= 0 && n <= hi
    ensures Sum(f, lo, hi) == Sum(f, 0, n)
  {
    SumSplit(f, lo, 0, hi);
    SumSplit(f, 0, n, hi);
    SumOfZeros(f, lo, 0);
    SumOfZeros(f, n, hi);
  }

  /** Moving a function that stays inside 0..n does not change its sum. */
  lemma SupportShift(f: int -> real, g: int -> real, n: nat, d: int)
    requires ZeroOutside(f, n) && ZeroOutside(g, n)
    requires Follows(f, g, d)
    ensures Sum(g, 0, n) == Sum(f, 0, n)
  {
    var k := if d < 0 then -d else d;
    SumWider(g, n, -k, n + k);
    SumShift(f, g, -k, n + k, d);
    SumWider(f, n, d - k, n + k + d);
  }

  function Combined(f: int -> real, k: real, c: int -> real): int -> real { i => f(i) + k * c(i) }

  lemma CombinedInside(f: int -> real, k: real, c: int -> real, n: nat)
    requires ZeroOutside(f, n) && ZeroOutside(c, n)
    ensures ZeroOutside(Combined(f, k, c), n)
  {
  }

  lemma CombinedSum(f: int -> real, k: real, c: int -> real, n: nat)
    ensures Sum(Combined(f, k, c), 0, n) == Sum(f, 0, n) + k * Sum(c, 0, n)
  {
    SumCombine(f, c, k, Combined(f, k, c), 0, n);
  }

  function Total(f: int -> real, n: nat): real { Sum(f, 0, n) }

  function Weighted(f: int -> real): int -> real { i => f(i) * i as real }

  /** The sum of the positions, each counted f times. */
  function Moment(f: int -> real, n: nat): real { Sum(Weighted(f), 0, n) }

  /** Positions measured from d on. */
  function Offset(f: int -> real, d: int): int -> real { i => f(i) * (i - d) as real }

  lemma OffsetFollows(f: int -> real, g: int -> real, d: int)
    requires Follows(f, g, d)
    ensures Follows(Offset(f, d), Weighted(g), d)
  {
  }

  lemma Distribute(v: real, i: int, d: int)
    ensures v * (i - d) as real == v * i as real + -(d as real) * v
  {
  }

  lemma OffsetSplits(f: int -> real, d: int, n: nat)
    ensures Sum(Offset(f, d), 0, n) == Moment(f, n) - d as real * Total(f, n)
  {
    forall i
      ensures Offset(f, d)(i) == Weighted(f)(i) + -(d as real) * f(i)
    {
      Distribute(f(i), i, d);
    }
    SumCombine(Weighted(f), f, -(d as real), Offset(f, d), 0, n);
  }

  lemma StaysInside(f: int -> real, n: nat, d: int)
    requires ZeroOutside(f, n)
    ensures ZeroOutside(Weighted(f), n) && ZeroOutside(Offset(f, d), n)
  {
  }

  lemma MomentShift(f: int -> real, g: int -> real, n: nat, d: int)
    requires ZeroOutside(f, n) && ZeroOutside(g, n)
    requires Follows(f, g, d)
    ensures Moment(g, n) == Moment(f, n) - d as real * Total(f, n)
  {
    OffsetFollows(f, g, d);
    StaysInside(f, n, d);
    StaysInside(g, n, d);
    SupportShift(Offset(f, d), Weighted(g), n, d);
    OffsetSplits(f, d, n);
  }

  // ---------------------------------------------------------------- depth masks

  /** One flag a texel: whether the depth target holds a real distance there. */
  type Mask = seq<seq<bool>>

  predicate Shaped(m: Mask, w: nat, h: nat) {
    |m| == h && forall y :: 0 <= y < h ==> |m[y]| == w
  }

  /** The mask on the whole plane, clear outside the image. */
  predicate Marked(m: Mask, y: int, x: int) {
    0 <= y < |m| && 0 <= x < |m[y]| && m[y][x]
  }

  function One(b: bool): real { if b then 1.0 else 0.0 }

  /** b is a moved by (-dy, -dx), and no marked texel falls off either image. */
  ghost predicate Moved(a: Mask, b: Mask, dy: int, dx: int) {
    forall y, x :: Marked(b, y, x) <==> Marked(a, y + dy, x + dx)
  }

  function Row(m: Mask, y: int): int -> real { x => One(Marked(m, y, x)) }

  function RowCounts(m: Mask, w: nat): int -> real { y => Total(Row(m, y), w) }

  function RowMoments(m: Mask, w: nat): int -> real { y => Moment(Row(m, y), w) }

  /** How many texels are marked, and the sums of their row and column numbers. */
  function Count(m: Mask, w: nat, h: nat): real { Total(RowCounts(m, w), h) }

  function SumY(m: Mask, w: nat, h: nat): real { Moment(RowCounts(m, w), h) }

  function SumX(m: Mask, w: nat, h: nat): real { Total(RowMoments(m, w), h) }

  /** Two functions that differ at one place differ in their sums by as much. */
  lemma {:induction false} SumPoint(f: int -> real, g: int -> real, lo: int, hi: int, p: int, v: real)
    requires lo <= p < hi && g(p) == f(p) + v && forall i :: lo <= i < hi && i != p ==> g(i) == f(i)
    ensures Sum(g, lo, hi) == Sum(f, lo, hi) + v
  {
    SumSplit(f, lo, p, hi);
    SumSplit(g, lo, p, hi);
    SumSplit(f, p, p + 1, hi);
    SumSplit(g, p, p + 1, hi);
    SumSame(f, g, lo, p);
    SumSame(f, g, p + 1, hi);
    assert Sum(f, p, p + 1) == Sum(f, p, p) + f(p) && Sum(g, p, p + 1) == Sum(g, p, p) + g(p);
  }

  /** m' is m with one more texel marked. */
  ghost predicate MarkedToo(m: Mask, m': Mask, y: int, x: int) {
    !Marked(m, y, x) && forall i, j :: Marked(m', i, j) <==> Marked(m, i, j) || (i == y && j == x)
  }

  lemma {:induction false} OtherRows(m: Mask, m': Mask, w: nat, y: nat, x: nat, i: int)
    requires MarkedToo(m, m', y, x) && i != y
    ensures RowCounts(m', w)(i) == RowCounts(m, w)(i) && RowMoments(m', w)(i) == RowMoments(m, w)(i)
  {
    hide Marked;
    SumSame(Row(m, i), Row(m', i), 0, w);
    SumSame(Weighted(Row(m, i)), Weighted(Row(m', i)), 0, w);
  }

  lemma {:induction false} ThatRow(m: Mask, m': Mask, w: nat, y: nat, x: nat)
    requires x < w && MarkedToo(m, m', y, x)
    ensures RowCounts(m', w)(y) == RowCounts(m, w)(y) + 1.0
    ensures RowMoments(m', w)(y) == RowMoments(m, w)(y) + x as real
  {
    hide Marked, Sum;
    SumPoint(Row(m, y), Row(m', y), 0, w, x, 1.0);
    SumPoint(Weighted(Row(m, y)), Weighted(Row(m', y)), 0, w, x, x as real);
  }

  /** A texel counts once, with its row and its column; and an empty mask has nothing to count. */
  lemma {:induction false} EachTexelCounts(m: Mask, m': Mask, w: nat, h: nat, y: nat, x: nat)
    requires y < h && x < w && MarkedToo(m, m', y, x)
    ensures Count(m', w, h) == Count(m, w, h) + 1.0
    ensures SumY(m', w, h) == SumY(m, w, h) + y as real && SumX(m', w, h) == SumX(m, w, h) + x as real
  {
    hide RowCounts, RowMoments, Sum, MarkedToo;
    forall i | i != y
      ensures RowCounts(m', w)(i) == RowCounts(m, w)(i) && RowMoments(m', w)(i) == RowMoments(m, w)(i)
    {
      OtherRows(m, m', w, y, x, i);
    }
    ThatRow(m, m', w, y, x);
    var f, f' := RowCounts(m, w), RowCounts(m', w);
    assert Weighted(f')(y) == Weighted(f)(y) + y as real by {
      Distribute(1.0, y, 0);
      assert (f(y) + 1.0) * y as real == f(y) * y as real + y as real;
    }
    SumPoint(RowCounts(m, w), RowCounts(m', w), 0, h, y, 1.0);
    SumPoint(RowMoments(m, w), RowMoments(m', w), 0, h, y, x as real);
    SumPoint(Weighted(RowCounts(m, w)), Weighted(RowCounts(m', w)), 0, h, y, y as real);
  }

  lemma {:induction false} NothingCounts(m: Mask, w: nat, h: nat)
    requires forall y, x :: !Marked(m, y, x)
    ensures Count(m, w, h) == SumY(m, w, h) == SumX(m, w, h) == 0.0
  {
    forall y
      ensures RowCounts(m, w)(y) == 0.0 && RowMoments(m, w)(y) == 0.0
    {
      EmptyRow(m, w, y);
    }
    SumOfZeros(RowCounts(m, w), 0, h);
    SumOfZeros(RowMoments(m, w), 0, h);
    SumOfZeros(Weighted(RowCounts(m, w)), 0, h);
  }

  lemma EmptyRow(m: Mask, w: nat, y: int)
    requires forall x :: 0 <= x < w ==> !Marked(m, y, x)
    ensures Total(Row(m, y), w) == 0.0 && Moment(Row(m, y), w) == 0.0
  {
    SumOfZeros(Row(m, y), 0, w);
    SumOfZeros(Weighted(Row(m, y)), 0, w);
  }

  lemma MovedRow(a: Mask, b: Mask, w: nat, h: nat, dy: int, dx: int, y: int)
    requires Shaped(a, w, h) && Shaped(b, w, h) && Moved(a, b, dy, dx)
    ensures RowCounts(b, w)(y) == RowCounts(a, w)(y + dy)
    ensures RowMoments(b, w)(y) == Combined(RowMoments(a, w), -(dx as real), RowCounts(a, w))(y + dy)
  {
    SupportShift(Row(a, y + dy), Row(b, y), w, dx);
    MomentShift(Row(a, y + dy), Row(b, y), w, dx);
  }

  lemma RowsInside(m: Mask, w: nat, h: nat)
    requires Shaped(m, w, h)
    ensures ZeroOutside(RowCounts(m, w), h) && ZeroOutside(RowMoments(m, w), h)
  {
    forall y | y < 0 || h <= y
      ensures RowCounts(m, w)(y) == 0.0 && RowMoments(m, w)(y) == 0.0
    {
      EmptyRow(m, w, y);
    }
  }

  lemma RowsMoved(a: Mask, b: Mask, w: nat, h: nat, dy: int, dx: int)
    requires Shaped(a, w, h) && Shaped(b, w, h) && Moved(a, b, dy, dx)
    ensures Follows(RowCounts(a, w), RowCounts(b, w), dy)
    ensures Follows(Combined(RowMoments(a, w), -(dx as real), RowCounts(a, w)), RowMoments(b, w), dy)
  {
    forall y
      ensures RowCounts(b, w)(y) == RowCounts(a, w)(y + dy)
      ensures RowMoments(b, w)(y) == Combined(RowMoments(a, w), -(dx as real), RowCounts(a, w))(y + dy)
    {
      MovedRow(a, b, w, h, dy, dx, y);
    }
  }

  lemma MovedCount(a: Mask, b: Mask, w: nat, h: nat, dy: int, dx: int)
    requires Shaped(a, w, h) && Shaped(b, w, h) && Moved(a, b, dy, dx)
    ensures Count(b, w, h) == Count(a, w, h)
  {
    RowsInside(a, w, h);
    RowsInside(b, w, h);
    RowsMoved(a, b, w, h, dy, dx);
    SupportShift(RowCounts(a, w), RowCounts(b, w), h, dy);
  }

  lemma MovedSumY(a: Mask, b: Mask, w: nat, h: nat, dy: int, dx: int)
    requires Shaped(a, w, h) && Shaped(b, w, h) && Moved(a, b, dy, dx)
    ensures SumY(b, w, h) == SumY(a, w, h) - dy as real * Count(a, w, h)
  {
    RowsInside(a, w, h);
    RowsInside(b, w, h);
    RowsMoved(a, b, w, h, dy, dx);
    MomentShift(RowCounts(a, w), RowCounts(b, w), h, dy);
  }

  lemma MovedSumX(a: Mask, b: Mask, w: nat, h: nat, dy: int, dx: int)
    requires Shaped(a, w, h) && Shaped(b, w, h) && Moved(a, b, dy, dx)
    ensures SumX(b, w, h) == Total(Combined(RowMoments(a, w), -(dx as real), RowCounts(a, w)), h)
  {
    RowsInside(a, w, h);
    RowsInside(b, w, h);
    RowsMoved(a, b, w, h, dy, dx);
    CombinedInside(RowMoments(a, w), -(dx as real), RowCounts(a, w), h);
    SupportShift(Combined(RowMoments(a, w), -(dx as real), RowCounts(a, w)), RowMoments(b, w), h, dy);
  }

  lemma MovedSums(a: Mask, b: Mask, w: nat, h: nat, dy: int, dx: int)
    requires Shaped(a, w, h) && Shaped(b, w, h) && Moved(a, b, dy, dx)
    ensures Count(b, w, h) == Count(a, w, h)
    ensures SumY(b, w, h) == SumY(a, w, h) - dy as real * Count(a, w, h)
    ensures SumX(b, w, h) == SumX(a, w, h) + -(dx as real) * Count(a, w, h)
  {
    MovedCount(a, b, w, h, dy, dx);
    MovedSumY(a, b, w, h, dy, dx);
    MovedSumX(a, b, w, h, dy, dx);
    CombinedSum(RowMoments(a, w), -(dx as real), RowCounts(a, w), h);
  }

  // ---------------------------------------------------------------- measuring the shift

  /** How many texels of row y are marked. */
  method CountRow(m: Mask, w: nat, h: nat, y: nat) returns (c: nat)
    requires Shaped(m, w, h) && y < h
    ensures c as real == RowCounts(m, w)(y)
  {
    c := 0;
    for x := 0 to w
      invariant c as real == Sum(Row(m, y), 0, x)
    {
      if m[y][x] {
        c := c + 1;
      }
    }
  }

  /** The sum of the marked columns of row y. */
  method SumRow(m: Mask, w: nat, h: nat, y: nat) returns (s: real)
    requires Shaped(m, w, h) && y < h
    ensures s == RowMoments(m, w)(y)
  {
    s := 0.0;
    for x := 0 to w
      invariant s == Sum(Weighted(Row(m, y)), 0, x)
    {
      assert Weighted(Row(m, y))(x) == if m[y][x] then x as real else 0.0;
      if m[y][x] {
        s := s + x as real;
      }
    }
  }

  method MaskCentroid(m: Mask, w: nat, h: nat) returns (n: nat, cy: real, cx: real)
    requires Shaped(m, w, h)
    ensures n as real == Count(m, w, h)
    ensures n == 0 ==> cy == 0.0 && cx == 0.0
    ensures n > 0 ==> cy == SumY(m, w, h) / Count(m, w, h) && cx == SumX(m, w, h) / Count(m, w, h)
  {
    n := 0;
    var sy, sx := 0.0, 0.0;
    for y := 0 to h
      invariant n as real == Sum(RowCounts(m, w), 0, y)
      invariant sy == Sum(Weighted(RowCounts(m, w)), 0, y)
      invariant sx == Sum(RowMoments(m, w), 0, y)
    {
      var c := CountRow(m, w, h, y);
      if c == 0 {
        UnmarkedRow(m, w, y);
        continue;
      }
      n := n + c;
      sy := sy + c as real * y as real;
      var s := SumRow(m, w, h, y);
      sx := sx + s;
    }
    if n == 0 {
      return 0, 0.0, 0.0;
    }
    return n, sy / n as real, sx / n as real;
  }

  lemma {:induction false} NoMark(f: int -> real, n: nat, x: nat)
    requires x < n && (forall i :: f(i) >= 0.0) && Total(f, n) == 0.0
    ensures f(x) == 0.0
  {
    SumSplit(f, 0, x, n);
    SumSplit(f, x, x + 1, n);
    NonNegative(f, 0, x);
    NonNegative(f, x + 1, n);
  }

  lemma NonNegative(f: int -> real, lo: int, hi: int)
    requires forall i :: f(i) >= 0.0
    ensures Sum(f, lo, hi) >= 0.0
    decreases hi - lo
  {
  }

  /** A row without marked texels adds nothing. */
  lemma UnmarkedRow(m: Mask, w: nat, y: int)
    requires RowCounts(m, w)(y) == 0.0
    ensures RowMoments(m, w)(y) == 0.0 && Weighted(RowCounts(m, w))(y) == 0.0
  {
    forall x | 0 <= x < w
      ensures Weighted(Row(m, y))(x) == 0.0
    {
      NoMark(Row(m, y), w, x);
    }
    SumOfZeros(Weighted(Row(m, y)), 0, w);
  }

  function HitRow(a: Mask, b: Mask, dy: int, dx: int, y: int): int -> real {
    x => One(Marked(b, y, x) && Marked(a, y + dy, x + dx))
  }

  function HitRows(a: Mask, b: Mask, w: nat, dy: int, dx: int): int -> real {
    y => Total(HitRow(a, b, dy, dx, y), w)
  }

  /** b's marked texels that land on a marked texel of a once moved. */
  function Hits(a: Mask, b: Mask, w: nat, h: nat, dy: int, dx: int): real {
    Total(HitRows(a, b, w, dy, dx), h)
  }

  function Overlap(a: Mask, b: Mask, w: nat, h: nat, dy: int, dx: int): real {
    if Count(b, w, h) == 0.0 then 0.0 else Hits(a, b, w, h, dy, dx) / Count(b, w, h)
  }

  /** A texel of b is a hit exactly when it lands on a marked one of a; and an empty mask has no hit. */
  lemma {:induction false} EachLandingCounts(a: Mask, b: Mask, b': Mask, w: nat, h: nat, dy: int, dx: int, y: nat,
      x: nat)
    requires y < h && x < w && MarkedToo(b, b', y, x)
    ensures Hits(a, b', w, h, dy, dx) == Hits(a, b, w, h, dy, dx) + if Marked(a, y + dy, x + dx) then 1.0 else 0.0
  {
    var v := One(Marked(a, y + dy, x + dx));
    forall i | i != y
      ensures HitRows(a, b', w, dy, dx)(i) == HitRows(a, b, w, dy, dx)(i)
    {
      SumSame(HitRow(a, b, dy, dx, i), HitRow(a, b', dy, dx, i), 0, w);
    }
    SumPoint(HitRow(a, b, dy, dx, y), HitRow(a, b', dy, dx, y), 0, w, x, v);
    SumPoint(HitRows(a, b, w, dy, dx), HitRows(a, b', w, dy, dx), 0, h, y, v);
  }

  lemma {:induction false} NothingLands(a: Mask, b: Mask, w: nat, h: nat, dy: int, dx: int)
    requires forall y, x :: !Marked(b, y, x)
    ensures Hits(a, b, w, h, dy, dx) == 0.0
  {
    forall y
      ensures HitRows(a, b, w, dy, dx)(y) == 0.0
    {
      SumOfZeros(HitRow(a, b, dy, dx, y), 0, w);
    }
    SumOfZeros(HitRows(a, b, w, dy, dx), 0, h);
  }

  /** Row y's share of the hits. */
  method CountHits(a: Mask, b: Mask, w: nat, h: nat, dy: int, dx: int, y: nat) returns (hit: nat)
    requires Shaped(a, w, h) && Shaped(b, w, h) && y < h
    ensures hit as real == Total(HitRow(a, b, dy, dx, y), w)
  {
    hit := 0;
    var ty := y + dy;
    if !(0 <= ty < h) {
      SumOfZeros(HitRow(a, b, dy, dx, y), 0, w);
      return;
    }
    for x := 0 to w
      invariant hit as real == Sum(HitRow(a, b, dy, dx, y), 0, x)
    {
      var tx := x + dx;
      assert |a[ty]| == w && |b[y]| == w;
      assert Marked(b, y, x) == b[y][x] && Marked(a, ty, tx) == (0 <= tx < w && a[ty][tx]);
      if b[y][x] && 0 <= tx < w && a[ty][tx] {
        hit := hit + 1;
      }
    }
  }

  lemma NoHits(a: Mask, b: Mask, w: nat, dy: int, dx: int, y: int)
    requires RowCounts(b, w)(y) == 0.0
    ensures HitRows(a, b, w, dy, dx)(y) == 0.0
  {
    forall x | 0 <= x < w
      ensures HitRow(a, b, dy, dx, y)(x) == 0.0
    {
      NoMark(Row(b, y), w, x);
    }
    SumOfZeros(HitRow(a, b, dy, dx, y), 0, w);
  }

  method MaskOverlap(a: Mask, b: Mask, w: nat, h: nat, dy: int, dx: int) returns (overlap: real)
    requires Shaped(a, w, h) && Shaped(b, w, h)
    ensures overlap == Overlap(a, b, w, h, dy, dx)
  {
    var hit, tot := 0, 0;
    for y := 0 to h
      invariant hit as real == Sum(HitRows(a, b, w, dy, dx), 0, y)
      invariant tot as real == Sum(RowCounts(b, w), 0, y)
    {
      var c := CountRow(b, w, h, y);
      if c == 0 {
        NoHits(a, b, w, dy, dx, y);
        continue;
      }
      tot := tot + c;
      var row := CountHits(a, b, w, h, dy, dx, y);
      hit := hit + row;
    }
    overlap := if tot == 0 then 0.0 else hit as real / tot as real;
  }

  /** A pure translation lands every marked texel of eye 1 on one of eye 0. */
  lemma MovedOverlap(a: Mask, b: Mask, w: nat, h: nat, dy: int, dx: int)
    requires Moved(a, b, dy, dx)
    ensures Hits(a, b, w, h, dy, dx) == Count(b, w, h)
  {
    forall y
      ensures HitRows(a, b, w, dy, dx)(y) == RowCounts(b, w)(y)
    {
      SumSame(HitRow(a, b, dy, dx, y), Row(b, y), 0, w);
    }
    SumSame(HitRows(a, b, w, dy, dx), RowCounts(b, w), 0, h);
  }

  /** Nearest integer, ties to even. */
  function Round(r: real): int {
    var f := r.Floor;
    var rest := r - f as real;
    if rest < 0.5 then f else if rest > 0.5 then f + 1 else if f % 2 == 0 then f else f + 1
  }

  /** n is within one half of r, and even where r lies halfway. */
  predicate Nearest(n: int, r: real) {
    n as real - 0.5 <= r <= n as real + 0.5 && (r == n as real - 0.5 || r == n as real + 0.5 ==> n % 2 == 0)
  }

  lemma RoundIff(r: real, n: int)
    ensures Round(r) == n <==> Nearest(n, r)
  {
    var f := r.Floor;
    if Nearest(n, r) {
      assert n == f || n == f + 1;
    }
  }

  /** The depth targets of one shape, one mask an eye. */
  datatype DepthPair = DepthPair(w: nat, h: nat, eye0: Mask, eye1: Mask)

  datatype Registration = Registration(dy: int, dx: int, w: nat, h: nat, overlap: real)

  predicate ValidPair(p: DepthPair) {
    p.w > 0 && p.h > 0 && Shaped(p.eye0, p.w, p.h) && Shaped(p.eye1, p.w, p.h)
  }

  function Area(p: DepthPair): real { (p.w * p.h) as real }

  predicate FarBody(p: DepthPair, m: Mask)
    requires Area(p) > 0.0
  {
    0.0002 < Count(m, p.w, p.h) / Area(p) < 0.4
  }

  lemma AreaIsPositive(p: DepthPair)
    requires ValidPair(p)
    ensures Area(p) > 0.0
  {
    assert p.w * p.h >= 1;
  }

  function Measured(p: DepthPair): Registration
    requires Count(p.eye0, p.w, p.h) != 0.0 && Count(p.eye1, p.w, p.h) != 0.0
  {
    var na, nb := Count(p.eye0, p.w, p.h), Count(p.eye1, p.w, p.h);
    var dy := Round(SumY(p.eye0, p.w, p.h) / na - SumY(p.eye1, p.w, p.h) / nb);
    var dx := Round(SumX(p.eye0, p.w, p.h) / na - SumX(p.eye1, p.w, p.h) / nb);
    Registration(dy, dx, p.w, p.h, Overlap(p.eye0, p.eye1, p.w, p.h, dy, dx))
  }

  /**
   The shift is, in whole texels, from eye 1's centroid to eye 0's, and the overlap that of the masks once moved by it.
   */
  ghost predicate Measures(p: DepthPair, r: Registration)
    requires Count(p.eye0, p.w, p.h) != 0.0 && Count(p.eye1, p.w, p.h) != 0.0
  {
    r.w == p.w && r.h == p.h && r.overlap == Overlap(p.eye0, p.eye1, p.w, p.h, r.dy, r.dx) &&
    Nearest(r.dy, CentroidY(p.eye0, p.w, p.h) - CentroidY(p.eye1, p.w, p.h)) &&
    Nearest(r.dx, CentroidX(p.eye0, p.w, p.h) - CentroidX(p.eye1, p.w, p.h))
  }

  function CentroidY(m: Mask, w: nat, h: nat): real
    requires Count(m, w, h) != 0.0
  {
    SumY(m, w, h) / Count(m, w, h)
  }

  function CentroidX(m: Mask, w: nat, h: nat): real
    requires Count(m, w, h) != 0.0
  {
    SumX(m, w, h) / Count(m, w, h)
  }

  lemma {:induction false} MeasuredIff(p: DepthPair, r: Registration)
    requires Count(p.eye0, p.w, p.h) != 0.0 && Count(p.eye1, p.w, p.h) != 0.0
    ensures r == Measured(p) <==> Measures(p, r)
  {
    hide Count, SumX, SumY, Round, Nearest, Overlap;
    RoundIff(CentroidY(p.eye0, p.w, p.h) - CentroidY(p.eye1, p.w, p.h), r.dy);
    RoundIff(CentroidX(p.eye0, p.w, p.h) - CentroidX(p.eye1, p.w, p.h), r.dx);
  }

  /** The masks are a far body of much the same size in both eyes, and register well. */
  predicate Accepted(p: DepthPair) {
    var na, nb := Count(p.eye0, p.w, p.h), Count(p.eye1, p.w, p.h);
    Area(p) > 0.0 && na != 0.0 && nb != 0.0 && FarBody(p, p.eye0) && FarBody(p, p.eye1) &&
    0.6 * (if na < nb then nb else na) <= (if na < nb then na else nb) && 0.7 <= Measured(p).overlap
  }

  method MeasurePair(p: DepthPair) returns (r: Option<Registration>)
    requires ValidPair(p)
    ensures r == if Accepted(p) then Some(Measured(p)) else None
    ensures r.Some? ==> Accepted(p) && Measures(p, r.value)
  {
    AreaIsPositive(p);
    var na, cya, cxa := MaskCentroid(p.eye0, p.w, p.h);
    var nb, cyb, cxb := MaskCentroid(p.eye1, p.w, p.h);
    var area := (p.w * p.h) as real;
    if na == 0 || nb == 0 {
      return None;
    }
    if !(0.0002 < na as real / area < 0.4) || !(0.0002 < nb as real / area < 0.4) {
      return None;
    }
    var least, most := if na < nb then na else nb, if na < nb then nb else na;
    if least as real < 0.6 * most as real {
      return None;
    }
    var dy, dx := Round(cya - cyb), Round(cxa - cxb);
    var overlap := MaskOverlap(p.eye0, p.eye1, p.w, p.h, dy, dx);
    if overlap < 0.7 {
      return None;
    }
    r := Some(Registration(dy, dx, p.w, p.h, overlap));
    MeasuredIff(p, r.value);
  }

  /** The depth route: the first pair, in the order given, that can carry the measurement. */
  method DepthRoute(pairs: seq<DepthPair>) returns (r: Option<Registration>)
    requires forall i :: 0 <= i < |pairs| ==> ValidPair(pairs[i])
    ensures r.None? ==> forall i :: 0 <= i < |pairs| ==> !Accepted(pairs[i])
    ensures r.Some? ==>
      exists i :: 0 <= i < |pairs| && Accepted(pairs[i]) && r.value == Measured(pairs[i]) &&
        Measures(pairs[i], r.value) &&
        forall j :: 0 <= j < i ==> !Accepted(pairs[j])
  {
    for i := 0 to |pairs|
      invariant forall j :: 0 <= j < i ==> !Accepted(pairs[j])
    {
      r := MeasurePair(pairs[i]);
      if r.Some? {
        return;
      }
    }
    return None;
  }

  lemma QuotientShift(s: real, n: real, d: int)
    requires n != 0.0
    ensures s / n - (s + -(d as real) * n) / n == d as real && s / n - (s - d as real * n) / n == d as real
  {
    assert (s + -(d as real) * n) / n == s / n + -(d as real);
  }

  lemma RoundWhole(d: int)
    ensures Round(d as real) == d
  {
  }

  lemma CentroidShift(p: DepthPair, dy: int, dx: int)
    requires ValidPair(p) && Moved(p.eye0, p.eye1, dy, dx) && Count(p.eye0, p.w, p.h) != 0.0
    ensures Count(p.eye1, p.w, p.h) == Count(p.eye0, p.w, p.h)
    ensures Measured(p).dy == dy && Measured(p).dx == dx
  {
    hide Count, SumY, SumX, Round, Moved, Overlap;
    var n := Count(p.eye0, p.w, p.h);
    MovedSums(p.eye0, p.eye1, p.w, p.h, dy, dx);
    QuotientShift(SumY(p.eye0, p.w, p.h), n, dy);
    QuotientShift(SumX(p.eye0, p.w, p.h), n, dx);
    RoundWhole(dy);
    RoundWhole(dx);
    assert SumY(p.eye0, p.w, p.h) / n - SumY(p.eye1, p.w, p.h) / n == dy as real;
    assert SumX(p.eye0, p.w, p.h) / n - SumX(p.eye1, p.w, p.h) / n == dx as real;
  }

  /** A pure translation is measured exactly, whatever the masks, once the far-body guard holds for eye 0. */
  lemma TranslationIsMeasured(p: DepthPair, dy: int, dx: int)
    requires ValidPair(p) && Moved(p.eye0, p.eye1, dy, dx)
    requires Area(p) > 0.0 && FarBody(p, p.eye0)
    ensures Accepted(p) && Measured(p) == Registration(dy, dx, p.w, p.h, 1.0)
  {
    CountIsPositive(p);
    CentroidShift(p, dy, dx);
    MovedOverlap(p.eye0, p.eye1, p.w, p.h, dy, dx);
    WholeOverlap(p, dy, dx);
  }

  lemma WholeOverlap(p: DepthPair, dy: int, dx: int)
    requires Count(p.eye1, p.w, p.h) == Hits(p.eye0, p.eye1, p.w, p.h, dy, dx) > 0.0
    ensures Overlap(p.eye0, p.eye1, p.w, p.h, dy, dx) == 1.0
  {
    var n := Count(p.eye1, p.w, p.h);
    assert n / n == 1.0;
  }

  lemma CountIsPositive(p: DepthPair)
    requires Area(p) > 0.0 && FarBody(p, p.eye0)
    ensures Count(p.eye0, p.w, p.h) > 0.0
  {
    var n := Count(p.eye0, p.w, p.h);
    assert n == n / Area(p) * Area(p);
  }

  // ---------------------------------------------------------------- the tile comparison

  const TILE: nat := 16

  /** Every fourth column of a tile is looked at. */
  function Samples(side: nat): nat { (side + 3) / 4 }

  /** The rows the file holds, all of them w texels wide; a file cut short holds fewer than h. */
  type Image<T> = seq<seq<T>>

  ghost predicate ImageOf<T>(img: Image<T>, w: nat, h: nat) {
    |img| <= h && forall y :: 0 <= y < |img| ==> |img[y]| == w
  }

  predicate InImage<T>(img: Image<T>, y: int, x: int) {
    0 <= y < |img| && 0 <= x < |img[y]|
  }

  function Luma<T>(img: Image<T>, luma: T -> real, y: int, x: int): real {
    if InImage(img, y, x) then luma(img[y][x]) else 0.0
  }

  /** One output tile of a given side, and the shift it is read at. */
  datatype Tile = Tile(side: nat, ty: nat, tx: nat, dy: int, dx: int)

  function SourceY(t: Tile, yy: int): int { t.ty * t.side + yy - t.dy }

  function SourceX(t: Tile, k: int): int { t.tx * t.side + 4 * k - t.dx }

  /** Every sample of the tile is read from inside the source. */
  ghost predicate TileValid<T>(img: Image<T>, t: Tile) {
    forall yy, k :: 0 <= yy < t.side && 0 <= k < Samples(t.side) ==> InImage(img, SourceY(t, yy), SourceX(t, k))
  }

  function LumaRow<T>(img: Image<T>, luma: T -> real, t: Tile, yy: int): int -> real {
    k => Luma(img, luma, SourceY(t, yy), SourceX(t, k))
  }

  function InRow<T>(img: Image<T>, t: Tile, yy: int): int -> real {
    k => One(InImage(img, SourceY(t, yy), SourceX(t, k)))
  }

  function LumaRows<T>(img: Image<T>, luma: T -> real, t: Tile): int -> real {
    yy => Total(LumaRow(img, luma, t, yy), Samples(t.side))
  }

  function InRows<T>(img: Image<T>, t: Tile): int -> real {
    yy => Total(InRow(img, t, yy), Samples(t.side))
  }

  /** The mean luminance over the samples inside the source, zero when there is none. */
  function TileMean<T>(img: Image<T>, luma: T -> real, t: Tile): real {
    var n := Total(InRows(img, t), t.side);
    if n == 0.0 then 0.0 else Total(LumaRows(img, luma, t), t.side) / n
  }

  lemma {:induction false} SumAbove(f: int -> real, g: int -> real, k: real, lo: int, hi: int)
    requires forall i :: lo <= i < hi ==> k * g(i) <= f(i)
    ensures k * Sum(g, lo, hi) <= Sum(f, lo, hi)
    decreases hi - lo
  {
    if lo < hi {
      SumAbove(f, g, k, lo, hi - 1);
      assert k * Sum(g, lo, hi) == k * Sum(g, lo, hi - 1) + k * g(hi - 1);
    }
  }

  lemma {:induction false} SumBelow(f: int -> real, g: int -> real, k: real, lo: int, hi: int)
    requires forall i :: lo <= i < hi ==> f(i) <= k * g(i)
    ensures Sum(f, lo, hi) <= k * Sum(g, lo, hi)
    decreases hi - lo
  {
    if lo < hi {
      SumBelow(f, g, k, lo, hi - 1);
      assert k * Sum(g, lo, hi) == k * Sum(g, lo, hi - 1) + k * g(hi - 1);
    }
  }

  /** Every sample of the tile that lies in the image is between lo and hi. */
  ghost predicate SamplesBetween<T>(img: Image<T>, luma: T -> real, t: Tile, lo: real, hi: real) {
    forall yy, k :: 0 <= yy < t.side && 0 <= k < Samples(t.side) && InImage(img, SourceY(t, yy), SourceX(t, k)) ==>
      lo <= Luma(img, luma, SourceY(t, yy), SourceX(t, k)) <= hi
  }

  lemma {:induction false} RowIsBetween<T>(img: Image<T>, luma: T -> real, t: Tile, lo: real, hi: real, yy: int)
    requires SamplesBetween(img, luma, t, lo, hi) && 0 <= yy < t.side
    ensures lo * InRows(img, t)(yy) <= LumaRows(img, luma, t)(yy) <= hi * InRows(img, t)(yy)
  {
    hide SourceX, SourceY, Sum, Samples;
    forall k | 0 <= k < Samples(t.side)
      ensures lo * InRow(img, t, yy)(k) <= LumaRow(img, luma, t, yy)(k) <= hi * InRow(img, t, yy)(k)
    {
      if !InImage(img, SourceY(t, yy), SourceX(t, k)) {
        assert InRow(img, t, yy)(k) == 0.0 && LumaRow(img, luma, t, yy)(k) == 0.0;
      }
    }
    SumAbove(LumaRow(img, luma, t, yy), InRow(img, t, yy), lo, 0, Samples(t.side));
    SumBelow(LumaRow(img, luma, t, yy), InRow(img, t, yy), hi, 0, Samples(t.side));
  }

  /** The mean lies between any bounds of the samples, so it is their value where all are alike. */
  lemma {:induction false} MeanIsBetween<T>(img: Image<T>, luma: T -> real, t: Tile, lo: real, hi: real)
    requires SamplesBetween(img, luma, t, lo, hi) && Total(InRows(img, t), t.side) > 0.0
    ensures lo <= TileMean(img, luma, t) <= hi
  {
    hide InImage, Luma, InRow, LumaRow, Sum, SamplesBetween, InRows, LumaRows;
    forall yy | 0 <= yy < t.side
      ensures lo * InRows(img, t)(yy) <= LumaRows(img, luma, t)(yy) <= hi * InRows(img, t)(yy)
    {
      RowIsBetween(img, luma, t, lo, hi, yy);
    }
    SumAbove(LumaRows(img, luma, t), InRows(img, t), lo, 0, t.side);
    SumBelow(LumaRows(img, luma, t), InRows(img, t), hi, 0, t.side);
    MeanBounds(Total(LumaRows(img, luma, t), t.side), Total(InRows(img, t), t.side), lo, hi);
  }

  lemma MeanBounds(sum: real, n: real, lo: real, hi: real)
    requires n > 0.0 && lo * n <= sum <= hi * n
    ensures lo <= sum / n <= hi
  {
    var mean := sum / n;
    assert mean * n == sum;
    if mean < lo {
      LessTimes(mean, lo, n);
    } else if mean > hi {
      LessTimes(hi, mean, n);
    }
  }

  lemma LessTimes(a: real, b: real, n: real)
    requires a < b && n > 0.0
    ensures a * n < b * n
  {
  }

  function SourceRow<T>(img: Image<T>, sy: int): Option<seq<T>> {
    if 0 <= sy < |img| then Some(img[sy]) else None
  }

  ghost predicate BlockOf<T>(img: Image<T>, side: nat, ty: nat, dy: int, n: nat, block: seq<Option<seq<T>>>) {
    |block| == n && forall yy :: 0 <= yy < n ==> block[yy] == SourceRow(img, ty * side + yy - dy)
  }

  /** The source rows one row of tiles reads; None where there is no such row. */
  method ReadBlock<T>(img: Image<T>, w: nat, h: nat, side: nat, ty: nat, dy: int) returns (block: seq<Option<seq<T>>>)
    requires ImageOf(img, w, h)
    ensures BlockOf(img, side, ty, dy, side, block)
  {
    block := [];
    for yy := 0 to side
      invariant BlockOf(img, side, ty, dy, yy, block)
    {
      var sy := ty * side + yy - dy;
      if !(0 <= sy < h) {
        block := block + [None];
        continue;
      }
      block := block + [if sy < |img| then Some(img[sy]) else None];
    }
  }

  /** The samples of one row of a tile. */
  method SampleRow<T>(img: Image<T>, w: nat, h: nat, luma: T -> real, t: Tile, yy: nat, row: Option<seq<T>>)
      returns (acc: real, n: nat, bad: bool)
    requires ImageOf(img, w, h)
    requires t.side > 0 && row == SourceRow(img, SourceY(t, yy))
    ensures acc == LumaRows(img, luma, t)(yy) && n as real == InRows(img, t)(yy)
    ensures bad <==> exists k :: 0 <= k < Samples(t.side) && !InImage(img, SourceY(t, yy), SourceX(t, k))
  {
    acc, n, bad := 0.0, 0, false;
    if row.None? {
      SumOfZeros(LumaRow(img, luma, t, yy), 0, Samples(t.side));
      SumOfZeros(InRow(img, t, yy), 0, Samples(t.side));
      assert !InImage(img, SourceY(t, yy), SourceX(t, 0));
      return 0.0, 0, true;
    }
    for k := 0 to Samples(t.side)
      invariant acc == Sum(LumaRow(img, luma, t, yy), 0, k)
      invariant n as real == Sum(InRow(img, t, yy), 0, k)
      invariant bad <==> exists i :: 0 <= i < k && !InImage(img, SourceY(t, yy), SourceX(t, i))
    {
      var sx := t.tx * t.side + 4 * k - t.dx;
      assert SourceX(t, k) == sx;
      if 0 <= sx < w {
        acc := acc + luma(row.value[sx]);
        n := n + 1;
      } else {
        bad := true;
      }
    }
  }

  /** What one entry of the tile map says of its tile. */
  ghost predicate TileRead<T>(img: Image<T>, luma: T -> real, t: Tile, mean: real, valid: bool) {
    mean == TileMean(img, luma, t) && (valid <==> TileValid(img, t))
  }

  method TileOf<T>(img: Image<T>, w: nat, h: nat, luma: T -> real, t: Tile, block: seq<Option<seq<T>>>)
      returns (mean: real, valid: bool)
    requires t.side > 0 && ImageOf(img, w, h) && BlockOf(img, t.side, t.ty, t.dy, t.side, block)
    ensures TileRead(img, luma, t, mean, valid)
  {
    var acc, n, bad := 0.0, 0, false;
    for yy := 0 to t.side
      invariant acc == Sum(LumaRows(img, luma, t), 0, yy)
      invariant n as real == Sum(InRows(img, t), 0, yy)
      invariant bad <==>
        exists i, k :: 0 <= i < yy && 0 <= k < Samples(t.side) && !InImage(img, SourceY(t, i), SourceX(t, k))
    {
      var a, m, b := SampleRow(img, w, h, luma, t, yy, block[yy]);
      acc, n, bad := acc + a, n + m, bad || b;
    }
    mean := if n == 0 then 0.0 else acc / n as real;
    valid := !bad;
  }

  /** One row of tiles, filled in place. */
  method FillTiles<T>(img: Image<T>, w: nat, h: nat, side: nat, luma: T -> real, ty: nat, dy: int, dx: int,
      tiles: array2<real>, valid: array2<bool>)
    requires ImageOf(img, w, h) && side > 0
    requires tiles.Length0 == valid.Length0 && tiles.Length1 == valid.Length1 && ty < tiles.Length0
    modifies tiles, valid
    ensures forall x :: 0 <= x < tiles.Length1 ==>
      TileRead(img, luma, Tile(side, ty, x, dy, dx), tiles[ty, x], valid[ty, x])
    ensures forall y, x :: 0 <= y < tiles.Length0 && y != ty && 0 <= x < tiles.Length1 ==>
      tiles[y, x] == old(tiles[y, x]) && valid[y, x] == old(valid[y, x])
  {
    var block := ReadBlock(img, w, h, side, ty, dy);
    for tx := 0 to tiles.Length1
      invariant forall x :: 0 <= x < tx ==> TileRead(img, luma, Tile(side, ty, x, dy, dx), tiles[ty, x], valid[ty, x])
      invariant forall y, x :: 0 <= y < tiles.Length0 && y != ty && 0 <= x < tiles.Length1 ==>
        tiles[y, x] == old(tiles[y, x]) && valid[y, x] == old(valid[y, x])
    {
      tiles[ty, tx], valid[ty, tx] := TileOf(img, w, h, luma, Tile(side, ty, tx, dy, dx), block);
    }
  }

  /** Mean luminance per tile, and which tiles were read wholly from inside the image at this shift. */
  method TileMap<T>(img: Image<T>, w: nat, h: nat, side: nat, luma: T -> real, dy: int, dx: int)
      returns (tiles: array2<real>, valid: array2<bool>)
    requires ImageOf(img, w, h) && side > 0
    ensures tiles.Length0 == valid.Length0 == h / side && tiles.Length1 == valid.Length1 == w / side
    ensures forall ty, tx :: 0 <= ty < h / side && 0 <= tx < w / side ==>
      TileRead(img, luma, Tile(side, ty, tx, dy, dx), tiles[ty, tx], valid[ty, tx])
  {
    var th, tw := h / side, w / side;
    tiles := new real[th, tw]((_, _) => 0.0);
    valid := new bool[th, tw]((_, _) => true);
    for ty := 0 to th
      invariant forall y, x :: 0 <= y < ty && 0 <= x < tw ==>
        TileRead(img, luma, Tile(side, y, x, dy, dx), tiles[y, x], valid[y, x])
    {
      FillTiles(img, w, h, side, luma, ty, dy, dx, tiles, valid);
    }
  }

  /** Eye 1's image is eye 0's moved by (-dy, -dx), wherever both have the texel. */
  ghost predicate ImageMoved<T>(img0: Image<T>, img1: Image<T>, luma: T -> real, dy: int, dx: int) {
    forall y, x :: InImage(img1, y, x) && InImage(img0, y + dy, x + dx) ==>
      luma(img1[y][x]) == luma(img0[y + dy][x + dx])
  }

  lemma TileFits(n: nat, side: nat, i: nat)
    requires side > 0 && i < n / side
    ensures i * side + side <= n
  {
    assert (i + 1) * side <= n / side * side;
  }

  lemma WholeTile<T>(img: Image<T>, w: nat, h: nat, side: nat, ty: nat, tx: nat)
    requires ImageOf(img, w, h) && |img| == h && side > 0 && ty < h / side && tx < w / side
    ensures TileValid(img, Tile(side, ty, tx, 0, 0))
  {
    TileFits(h, side, ty);
    TileFits(w, side, tx);
    var t := Tile(side, ty, tx, 0, 0);
    forall yy, k | 0 <= yy < side && 0 <= k < Samples(side)
      ensures InImage(img, SourceY(t, yy), SourceX(t, k))
    {
      assert 4 * k < side;
    }
  }

  lemma ShiftedRowAgrees<T>(img0: Image<T>, img1: Image<T>, luma: T -> real, t: Tile, u: Tile, yy: int)
    requires 0 <= yy < t.side && u == Tile(t.side, t.ty, t.tx, 0, 0) && ImageMoved(img0, img1, luma, t.dy, t.dx)
    requires TileValid(img1, t) && TileValid(img0, u)
    ensures LumaRows(img1, luma, t)(yy) == LumaRows(img0, luma, u)(yy)
    ensures InRows(img1, t)(yy) == InRows(img0, u)(yy)
  {
    forall k | 0 <= k < Samples(t.side)
      ensures LumaRow(img1, luma, t, yy)(k) == LumaRow(img0, luma, u, yy)(k)
      ensures InRow(img1, t, yy)(k) == InRow(img0, u, yy)(k)
    {
      assert InImage(img1, SourceY(t, yy), SourceX(t, k)) && InImage(img0, SourceY(u, yy), SourceX(u, k));
      assert SourceY(t, yy) + t.dy == SourceY(u, yy) && SourceX(t, k) + t.dx == SourceX(u, k);
    }
    SumSame(LumaRow(img1, luma, t, yy), LumaRow(img0, luma, u, yy), 0, Samples(t.side));
    SumSame(InRow(img1, t, yy), InRow(img0, u, yy), 0, Samples(t.side));
  }

  /** Read at the shift that undoes the translation, every valid tile of eye 1 has the mean of eye 0's tile. */
  lemma ShiftedTileAgrees<T>(img0: Image<T>, img1: Image<T>, w: nat, h: nat, luma: T -> real, t: Tile)
    requires ImageOf(img0, w, h) && ImageOf(img1, w, h) && |img0| == h && t.side > 0 && t.ty < h / t.side &&
      t.tx < w / t.side
    requires ImageMoved(img0, img1, luma, t.dy, t.dx) && TileValid(img1, t)
    ensures TileMean(img1, luma, t) == TileMean(img0, luma, Tile(t.side, t.ty, t.tx, 0, 0))
  {
    var u := Tile(t.side, t.ty, t.tx, 0, 0);
    WholeTile(img0, w, h, t.side, t.ty, t.tx);
    forall yy | 0 <= yy < t.side { ShiftedRowAgrees(img0, img1, luma, t, u, yy); }
    SumSame(LumaRows(img1, luma, t), LumaRows(img0, luma, u), 0, t.side);
    SumSame(InRows(img1, t), InRows(img0, u), 0, t.side);
  }

  // ---------------------------------------------------------------- the shift in another target

  /** The vector in another target's texels: scaled with its size. */
  function ScaleShift(r: Option<Registration>, w: nat, h: nat): (int, int)
    requires r.Some? ==> r.value.w > 0 && r.value.h > 0
  {
    if r.None? then (0, 0)
    else (Round((r.value.dy * h) as real / r.value.h as real), Round((r.value.dx * w) as real / r.value.w as real))
  }

  /** The vector found is the nearest to the measured one in the other target's texels. */
  lemma ScaleShiftIsNearest(r: Registration, w: nat, h: nat)
    requires r.w > 0 && r.h > 0
    ensures var (sdy, sdx) := ScaleShift(Some(r), w, h);
      Nearest(sdy, (r.dy * h) as real / r.h as real) && Nearest(sdx, (r.dx * w) as real / r.w as real)
    ensures ScaleShift(None, w, h) == (0, 0)
  {
    hide Nearest, Round;
    var y, x := (r.dy * h) as real / r.h as real, (r.dx * w) as real / r.w as real;
    RoundIff(y, Round(y));
    RoundIff(x, Round(x));
  }

  /** (dy, dx) in texels of the measured shape is (sdy, sdx) in texels of another, without a remainder. */
  predicate Scales(r: Registration, w: nat, h: nat, sdy: int, sdx: int) {
    r.w > 0 && r.h > 0 && sdy * r.h == r.dy * h && sdx * r.w == r.dx * w
  }

  /**
   Where the vector is whole in the other target's texels, it is found: so at every multiple of the measured shape.
   */
  lemma ScaleShiftIsExact(r: Registration, w: nat, h: nat, sdy: int, sdx: int)
    requires Scales(r, w, h, sdy, sdx)
    ensures ScaleShift(Some(r), w, h) == (sdy, sdx)
  {
    ScaleWhole(r.dy * h, r.h, sdy);
    ScaleWhole(r.dx * w, r.w, sdx);
  }

  lemma ScaleWhole(m: int, n: nat, q: int)
    requires n > 0 && m == q * n
    ensures Round(m as real / n as real) == q
  {
    assert m as real == q as real * n as real;
    assert q as real * n as real / n as real == q as real;
    RoundWhole(q);
  }

  /**
   Translation is fully cancelled: eye 1 a translate of eye 0 in depth, and in an image of any size by that translation
   in the image's own texels, the tiles of eye 1 at the shift the tool uses are those of eye 0.
   */
  method CompareRegistered<T>(depth: DepthPair, img0: Image<T>, img1: Image<T>, w: nat, h: nat, side: nat,
      luma: T -> real, ghost dy: int, ghost dx: int, ghost sdy: int, ghost sdx: int)
      returns (r: Option<Registration>, tiles0: array2<real>, tiles1: array2<real>, valid1: array2<bool>)
    requires side > 0 && ValidPair(depth) && Area(depth) > 0.0 && FarBody(depth, depth.eye0)
    requires Moved(depth.eye0, depth.eye1, dy, dx)
    requires ImageOf(img0, w, h) && ImageOf(img1, w, h) && |img0| == h
    requires Scales(Registration(dy, dx, depth.w, depth.h, 1.0), w, h, sdy, sdx) &&
      ImageMoved(img0, img1, luma, sdy, sdx)
    ensures r == Some(Registration(dy, dx, depth.w, depth.h, 1.0))
    ensures tiles0.Length0 == tiles1.Length0 == valid1.Length0 == h / side
    ensures tiles0.Length1 == tiles1.Length1 == valid1.Length1 == w / side
    ensures forall ty, tx :: 0 <= ty < h / side && 0 <= tx < w / side && valid1[ty, tx] ==>
      tiles1[ty, tx] == tiles0[ty, tx]
    ensures forall ty, tx :: 0 <= ty < h / side && 0 <= tx < w / side ==>
      (valid1[ty, tx] <==> TileValid(img1, Tile(side, ty, tx, sdy, sdx)))
  {
    r := DepthRoute([depth]);
    TranslationIsMeasured(depth, dy, dx);
    assert [depth][0] == depth;
    ScaleShiftIsExact(r.value, w, h, sdy, sdx);
    var shift := ScaleShift(r, w, h);
    var valid0;
    tiles0, valid0 := TileMap(img0, w, h, side, luma, 0, 0);
    tiles1, valid1 := TileMap(img1, w, h, side, luma, shift.0, shift.1);
    forall ty, tx | 0 <= ty < h / side && 0 <= tx < w / side && valid1[ty, tx]
      ensures tiles1[ty, tx] == tiles0[ty, tx]
    {
      ShiftedTileAgrees(img0, img1, w, h, luma, Tile(side, ty, tx, sdy, sdx));
    }
  }

  // ---------------------------------------------------------------- what a valid tile promises

  /** The tile's whole source square lies inside the image. */
  predicate WhollyInside<T>(img: Image<T>, w: nat, t: Tile) {
    0 <= SourceY(t, 0) && SourceY(t, t.side - 1) < |img| && 0 <= SourceX(t, 0) && SourceX(t, 0) + t.side as int - 1 < w
  }

  /** A valid tile is wholly inside exactly when its last column is; only every fourth column is looked at. */
  lemma ValidIsWhollyInsideIff<T>(img: Image<T>, w: nat, h: nat, t: Tile)
    requires ImageOf(img, w, h) && t.side > 0
    ensures WhollyInside(img, w, t) ==> TileValid(img, t)
    ensures TileValid(img, t) ==> (WhollyInside(img, w, t) <==> SourceX(t, 0) + t.side as int - 1 < w)
  {
    if TileValid(img, t) {
      assert InImage(img, SourceY(t, 0), SourceX(t, 0)) && InImage(img, SourceY(t, t.side - 1), SourceX(t, 0));
    }
  }

  /** One tile of a 16 by 16 image read three columns to the right: valid, with its last three columns outside. */
  lemma ValidTileOverhangs(img: Image<real>, t: Tile)
    requires |img| == 16 && (forall y :: 0 <= y < 16 ==> |img[y]| == 16) && t == Tile(TILE, 0, 0, 0, -3)
    ensures TileValid(img, t) && !WhollyInside(img, 16, t)
  {
    forall yy, k | 0 <= yy < t.side && 0 <= k < Samples(t.side)
      ensures InImage(img, SourceY(t, yy), SourceX(t, k))
    {
      assert Samples(TILE) == 4;
    }
  }

  /** The columns past the last one looked at: three for a tile of sixteen, and never more. */
  function Unseen(side: nat): (n: nat)
    requires side > 0
    ensures n <= 3
  {
    side - 1 - 4 * (Samples(side) - 1)
  }

  /** All columns of the tile that are looked at lie in the image, and not all that are not. */
  predicate ColumnsOverhang(w: nat, side: nat, dx: int, tx: nat)
    requires side > 0
  {
    0 <= tx * side - dx && tx * side - dx + 4 * (Samples(side) - 1) < w < tx * side - dx + side
  }

  predicate RowsFit<T>(img: Image<T>, side: nat, dy: int, ty: nat) {
    0 <= ty * side - dy && ty * side - dy + side <= |img|
  }

  /** A valid tile overhangs the right edge by no more columns than are not looked at, and no other. */
  lemma {:induction false} OverhangIsBounded<T>(img: Image<T>, w: nat, h: nat, t: Tile)
    requires ImageOf(img, w, h) && t.side > 0 && TileValid(img, t)
    ensures SourceX(t, 0) + t.side as int <= w + Unseen(t.side)
    ensures 0 <= SourceX(t, 0) && RowsFit(img, t.side, t.dy, t.ty)
  {
    assert InImage(img, SourceY(t, 0), SourceX(t, Samples(t.side) - 1));
    assert InImage(img, SourceY(t, 0), SourceX(t, 0)) && InImage(img, SourceY(t, t.side - 1), SourceX(t, 0));
  }

  lemma {:induction false} OverhangsIff<T>(img: Image<T>, w: nat, h: nat, t: Tile)
    requires ImageOf(img, w, h) && t.side > 0
    ensures TileValid(img, t) && !WhollyInside(img, w, t) <==>
      RowsFit(img, t.side, t.dy, t.ty) && ColumnsOverhang(w, t.side, t.dx, t.tx)
  {
    if TileValid(img, t) {
      OverhangIsBounded(img, w, h, t);
      assert InImage(img, SourceY(t, 0), SourceX(t, Samples(t.side) - 1));
    }
    if RowsFit(img, t.side, t.dy, t.ty) && ColumnsOverhang(w, t.side, t.dx, t.tx) {
      forall yy, k | 0 <= yy < t.side && 0 <= k < Samples(t.side)
        ensures InImage(img, SourceY(t, yy), SourceX(t, k))
      {
      }
    }
  }

  /** The shift leaves 1 to 3 columns of some tile past the right edge, and no more: what can be seen from w and dx. */
  ghost predicate ShiftOverhangs(w: nat, side: nat, dx: int)
    requires side > 0
  {
    exists c: nat :: 1 <= c <= Unseen(side) && Leaves(w, side, dx, c)
  }

  predicate Leaves(w: nat, side: nat, dx: int, c: nat)
    requires side > 0
  {
    c + dx <= 0 <= w + dx + c - side && (w + dx + c) % side == 0
  }

  /** Some valid tile of the map overhangs exactly when some row of tiles fits and the shift leaves such columns. */
  lemma {:induction false} MapOverhangsIff<T>(img: Image<T>, w: nat, h: nat, side: nat, dy: int, dx: int)
    requires ImageOf(img, w, h) && side > 0
    ensures (exists ty: nat, tx: nat ::
      ty < h / side && tx < w / side && ValidOverhang(img, w, Tile(side, ty, tx, dy, dx)))
      <==> (exists ty: nat :: ty < h / side && RowsFit(img, side, dy, ty)) && ShiftOverhangs(w, side, dx)
  {
    if ty: nat, tx: nat :| ty < h / side && tx < w / side && ValidOverhang(img, w, Tile(side, ty, tx, dy, dx)) {
      OverhangsIff(img, w, h, Tile(side, ty, tx, dy, dx));
      ColumnsLeave(w, side, dx, tx);
    }
    if (exists ty: nat :: ty < h / side && RowsFit(img, side, dy, ty)) && ShiftOverhangs(w, side, dx) {
      var ty: nat :| ty < h / side && RowsFit(img, side, dy, ty);
      var c: nat :| 1 <= c <= Unseen(side) && Leaves(w, side, dx, c);
      var tx := LeftColumns(w, side, dx, c);
      OverhangsIff(img, w, h, Tile(side, ty, tx, dy, dx));
    }
  }

  ghost predicate ValidOverhang<T>(img: Image<T>, w: nat, t: Tile) { TileValid(img, t) && !WhollyInside(img, w, t) }

  lemma {:induction false} ColumnsLeave(w: nat, side: nat, dx: int, tx: nat)
    requires side > 0 && tx < w / side && ColumnsOverhang(w, side, dx, tx)
    ensures ShiftOverhangs(w, side, dx)
  {
    TileFits(w, side, tx);
    var c := tx * side - dx + side - w;
    assert w + dx + c == (tx + 1) * side;
    MultipleOf(tx + 1, side);
    assert Leaves(w, side, dx, c);
  }

  lemma MultipleOf(n: nat, side: nat)
    requires side > 0
    ensures (n * side) % side == 0
  {
    var x := n * side;
    var q := n - x / side;
    assert q * side == x % side;
    if q >= 1 {
      TimesGrows(1, q, side);
    } else if q < 0 {
      TimesGrows(q, -1, side);
    }
  }

  lemma {:induction false} LeftColumns(w: nat, side: nat, dx: int, c: nat) returns (tx: nat)
    requires side > 0 && 1 <= c <= Unseen(side) && Leaves(w, side, dx, c)
    ensures tx < w / side && ColumnsOverhang(w, side, dx, tx)
  {
    var n := (w + dx + c) / side;
    assert n * side == w + dx + c;
    AtLeastOne(n, side);
    tx := n - 1;
    assert tx * side == w + dx + c - side;
    FitsAtMost(n, side, w);
  }

  lemma AtLeastOne(n: int, side: nat)
    requires side > 0 && n * side >= side
    ensures n >= 1
  {
    if n < 1 {
      TimesGrows(n, 0, side);
    }
  }

  lemma FitsAtMost(n: nat, side: nat, w: nat)
    requires side > 0 && n * side <= w
    ensures n <= w / side
  {
    if n > w / side {
      TimesGrows(w / side + 1, n, side);
    }
  }
}
