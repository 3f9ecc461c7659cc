/**
 Geometry normalisation of tools/identity_fusion_capture.py: a draw's indices of 16 or 32 bits, its base vertex and a
 window on its vertex buffer become a compact vertex buffer and 32-bit indices rebased onto it.
 */
module ReplayGeometry {
  import opened Prelude
  import opened Bytes

  datatype ExportError =
    | UnknownResource | ResourceDescriptor | ResourceTooLarge | ResourceIncomplete | InstanceDescriptor
    | InstanceOutOfBounds | ConstantMissing | ConstantIncomplete | GeometryDescriptorMissing
    | GeometryDescriptorInvalid | IndexWindowIncomplete | NegativeVertexIndex | VertexWindowIncomplete
    | VertexWindowTooLarge | LayoutInvalid | DimensionsInvalid | DimensionsMismatch | GeometryCountExceeded
    | ResourceCountExceeded | AmbiguousGeometryKey | GeometryUnavailable | BadFrameCount | TooFewFrames
    | FramesNotConsecutive | TooManyDraws | NoGeometry | MissingShader | ShaderHashMismatch | FixtureCount
    | BlobTooLarge | BadInstance | FixtureTooLarge | FieldOutOfRange | TruncatedFixture | InvalidMagic | InvalidHeader
    | InvalidBlobSize | InvalidStride | InvalidDescriptor | InvalidSemantic | InvalidIndexSize | InvalidDrawCount
    | InvalidReference | TrailingBytes

  const MAX_VERTEX: nat := 262144
  const MAX_STRIDE: nat := 256
  const MAX_ELEMENTS: nat := 32
  const MAX_SEMANTIC: nat := 63

  // ---------------------------------------------------------------- the captured draw

  datatype Element = Element(semantic: string, index: nat, format: nat, slot: nat, offset: nat, classification: nat,
      step: nat)

  /**
   A bound stream: where it starts in its resource, and the bytes captured from `capture` on (by default its start).
   */
  datatype BoundStream = BoundStream(offset: nat, stride: nat, whole: nat, capture: Option<nat>, data: seq<byte>)

  datatype Constant = Constant(data: seq<byte>, whole: nat)

  datatype Draw = Draw(ordinal: nat, vs: nat, instances: nat, count: nat, start: nat, base: int, startInstance: nat,
      width: nat, height: nat, frame: nat, layout: seq<Element>, streams: seq<BoundStream>, mesh: seq<nat>,
      buffers: seq<Constant>)

  /** What names a draw across frames. */
  datatype StableKey = StableKey(vs: nat, layout: seq<Element>, count: nat, start: nat, base: int)

  datatype SourceKey = SourceKey(stable: StableKey, streams: seq<(nat, nat, nat)>)

  function KeyOf(d: Draw): StableKey { StableKey(d.vs, d.layout, d.count, d.start, d.base) }

  function FullKey(d: Draw): SourceKey {
    SourceKey(KeyOf(d), if |d.streams| < 3 then [] else
      [(d.streams[1].offset, d.streams[1].stride, d.streams[1].whole), (d.streams[2].offset, d.streams[2].stride,
          d.streams[2].whole)])
  }

  /**
   Draws have one stable key exactly when these agree, and one source key when their mesh streams are bound alike too.
   */
  lemma KeysSeparate(a: Draw, b: Draw)
    ensures KeyOf(a) == KeyOf(b) <==>
      a.vs == b.vs && a.layout == b.layout && a.count == b.count && a.start == b.start && a.base == b.base
    ensures |a.streams| >= 3 && |b.streams| >= 3 ==>
      (FullKey(a) == FullKey(b) <==> KeyOf(a) == KeyOf(b) && forall n: nat :: 1 <= n < 3 ==>
        a.streams[n].offset == b.streams[n].offset && a.streams[n].stride == b.streams[n].stride &&
        a.streams[n].whole == b.streams[n].whole)
  {
    if |a.streams| >= 3 && |b.streams| >= 3 {
      var p, q := FullKey(a).streams, FullKey(b).streams;
      assert p == q <==> p[0] == q[0] && p[1] == q[1];
    }
  }

  datatype Geometry = Geometry(shader: nat, indexCount: nat, stride: nat, layout: seq<Element>, vb: seq<byte>,
      ib: seq<byte>, source: SourceKey, sourceIndexSize: nat, sourceFirst: int)

  // ---------------------------------------------------------------- normalisation

  function CaptureStart(s: BoundStream): nat { if s.capture.Some? then s.capture.value else s.offset }

  /** n bytes of the resource from an address on, seen through what was captured of it. */
  function Window(s: BoundStream, address: int, n: nat): Option<seq<byte>> {
    var rel := address - CaptureStart(s);
    if rel < 0 || rel + n > |s.data| then None else Some(s.data[rel..rel + n])
  }

  function LeastOf(xs: seq<int>): (m: int)
    requires xs != []
    ensures m in xs && forall x :: x in xs ==> m <= x
  {
    if |xs| == 1 then xs[0]
    else
      assert xs == [xs[0]] + xs[1..];
      var m := LeastOf(xs[1..]);
      if xs[0] < m then xs[0] else m
  }

  function GreatestOf(xs: seq<int>): (m: int)
    requires xs != []
    ensures m in xs && forall x :: x in xs ==> x <= m
  {
    if |xs| == 1 then xs[0]
    else
      assert xs == [xs[0]] + xs[1..];
      var m := GreatestOf(xs[1..]);
      if m < xs[0] then xs[0] else m
  }

  predicate SemanticOk(s: string) {
    0 < |s| <= MAX_SEMANTIC && forall i :: 0 <= i < |s| ==> s[i] < 128 as char
  }

  predicate LayoutOk(layout: seq<Element>) {
    0 < |layout| <= MAX_ELEMENTS && forall i :: 0 <= i < |layout| ==> SemanticOk(layout[i].semantic)
  }

  lemma {:induction false} SizeOfFields(n: nat, w: nat)
    ensures Size(Of(n, w)) == n * w
  {
    if n > 0 {
      assert Of(n, w)[1..] == Of(n - 1, w);
      SizeOfFields(n - 1, w);
    }
  }

  /** The vertices the draw's indices name, base added. */
  function Vertices(count: nat, w: nat, base: int, raw: seq<byte>): (vs: seq<int>)
    requires |raw| == count * w
    ensures |vs| == count
  {
    SizeOfFields(count, w);
    var indices := UnpackAll(Of(count, w), raw);
    seq(count, i requires 0 <= i < count => base + indices[i])
  }

  function Rebased(vertices: seq<int>, low: int): (indices: seq<nat>)
    requires forall v :: v in vertices ==> low <= v
    ensures |indices| == |vertices| && forall i :: 0 <= i < |vertices| ==> indices[i] == vertices[i] - low
  {
    if vertices == [] then []
    else
      assert vertices[0] in vertices && forall v :: v in vertices[1..] ==> v in vertices;
      [vertices[0] - low] + Rebased(vertices[1..], low)
  }

  /** Where the draw's j-th index lies in its resource. */
  function IndexAddress(d: Draw, j: nat): int
    requires |d.streams| >= 3
  {
    d.streams[2].offset + (d.start + j) * d.streams[2].stride
  }

  /** The bytes of all the draw's indices. */
  function IndexWindow(d: Draw): (raw: Option<seq<byte>>)
    requires |d.streams| >= 3
    ensures raw.Some? ==> |raw.value| == d.count * d.streams[2].stride
  {
    Window(d.streams[2], IndexAddress(d, 0), d.count * d.streams[2].stride)
  }

  function DrawVertices(d: Draw): (vs: seq<int>)
    requires |d.streams| >= 3 && IndexWindow(d).Some?
    ensures |vs| == d.count
  {
    Vertices(d.count, d.streams[2].stride, d.base, IndexWindow(d).value)
  }

  function Normalize(d: Draw): Result<Geometry, ExportError> {
    if |d.streams| < 3 then Err(GeometryDescriptorMissing)
    else if !(0 < d.streams[1].stride <= MAX_STRIDE && d.streams[2].stride in {2, 4})
      then Err(GeometryDescriptorInvalid)
    else if IndexWindow(d).None? then Err(IndexWindowIncomplete)
    else
      var vertices := DrawVertices(d);
      if vertices == [] || LeastOf(vertices) < 0 then Err(NegativeVertexIndex) else Compact(d, vertices)
  }

  /** The size of the vertices from one to another, in bytes of the vertex stream. */
  function SpanBytes(d: Draw, v: int, v': int): int
    requires |d.streams| >= 3
  {
    (v' + 1 - v) * d.streams[1].stride
  }

  /** The bytes of vertices low to high. */
  function Spanned(d: Draw, low: int, high: int): Option<seq<byte>>
    requires |d.streams| >= 3 && low <= high
  {
    Window(d.streams[1], d.streams[1].offset + low * d.streams[1].stride, (high + 1 - low) * d.streams[1].stride)
  }

  function Compact(d: Draw, vertices: seq<int>): Result<Geometry, ExportError>
    requires |d.streams| >= 3 && vertices != []
  {
    CompactSpan(d, vertices, LeastOf(vertices), GreatestOf(vertices))
  }

  /** The window of the vertices low to high, and the indices counted from low. */
  function CompactSpan(d: Draw, vertices: seq<int>, low: int, high: int): Result<Geometry, ExportError>
    requires |d.streams| >= 3 && low <= high && forall v :: v in vertices ==> low <= v
  {
    var compact := Spanned(d, low, high);
    if compact.None? then Err(VertexWindowIncomplete)
    else if |compact.value| > MAX_VERTEX then Err(VertexWindowTooLarge)
    else if !LayoutOk(d.layout) then Err(LayoutInvalid)
    else Ok(Geometry(d.vs, d.count, d.streams[1].stride, d.layout, compact.value,
                     PackAll(Of(|vertices|, 4), Rebased(vertices, low)), FullKey(d), d.streams[2].stride, low))
  }

  lemma {:induction false} NormalFields(d: Draw)
    requires Normalize(d).Ok?
    ensures var g := Normalize(d).value;
      g.shader == d.vs && g.indexCount == d.count && g.layout == d.layout && g.source == FullKey(d) &&
      |d.streams| >= 3 && g.stride == d.streams[1].stride
  {
    hide IndexWindow, DrawVertices, LeastOf, GreatestOf, Spanned, Rebased, PackAll, Of, LayoutOk, FullKey;
  }

  // ---------------------------------------------------------------- what the GPU reads

  /** The j-th index of a w-byte index buffer. */
  function IndexAt(ib: seq<byte>, w: nat, j: nat): nat
    requires j * w + w <= |ib|
  {
    Unpack(ib[j * w..j * w + w])
  }

  /** The bytes of vertex v. */
  function VertexAt(vb: seq<byte>, stride: nat, v: nat): seq<byte>
    requires v * stride + stride <= |vb|
  {
    vb[v * stride..v * stride + stride]
  }

  /** The vertex the draw's j-th index names, read alone from the captured index window. */
  function SourceVertex(d: Draw, j: nat): Option<int>
    requires |d.streams| >= 3
  {
    var bytes := Window(d.streams[2], IndexAddress(d, j), d.streams[2].stride);
    if bytes.None? then None else Some(d.base + Unpack(bytes.value))
  }

  /** The bytes of a vertex in the captured vertex window. */
  function SourceBytes(d: Draw, v: int): Option<seq<byte>>
    requires |d.streams| >= 3
  {
    Window(d.streams[1], d.streams[1].offset + v * d.streams[1].stride, d.streams[1].stride)
  }

  // ---------------------------------------------------------------- normalisation preserves what is fetched

  /** Part of a window, read alone. */
  lemma {:induction false} WindowWithin(s: BoundStream, address: int, n: nat, p: nat, k: nat)
    requires Window(s, address, n).Some? && p + k <= n
    ensures Window(s, address + p, k) == Some(Window(s, address, n).value[p..p + k])
  {
    var rel := address - CaptureStart(s);
    assert s.data[rel..rel + n][p..p + k] == s.data[rel + p..rel + p + k];
  }

  lemma {:induction false} FieldInside(j: nat, n: nat, w: nat)
    requires j < n
    ensures j * w + w <= n * w
  {
    TimesGrows(j + 1, n, w);
  }

  lemma {:induction false} AddressStep(d: Draw, j: nat)
    requires |d.streams| >= 3
    ensures IndexAddress(d, j) == IndexAddress(d, 0) + j * d.streams[2].stride
  {
  }

  /** One index read alone is the one unpacked with the rest. */
  lemma {:induction false} IndexReadAlone(d: Draw, j: nat)
    requires |d.streams| >= 3 && j < d.count && IndexWindow(d).Some?
    ensures SourceVertex(d, j) == Some(DrawVertices(d)[j])
  {
    hide Unpack, UnpackAll, Size, FieldStart;
    var w, n := d.streams[2].stride, d.count;
    AddressStep(d, j);
    FieldInside(j, n, w);
    WindowWithin(d.streams[2], IndexAddress(d, 0), n * w, j * w, w);
    SizeOfFields(n, w);
    FieldStartOf(n, w, j);
    UnpackedField(Of(n, w), IndexWindow(d).value, j);
  }

  lemma {:induction false} VertexAddress(offset: int, low: int, v: int, k: nat)
    requires low <= v
    ensures offset + v * k == offset + low * k + (v - low) * k && 0 <= (v - low) * k
  {
  }

  /** A vertex between low and high: its bytes, read alone, are its place in the window that spans them. */
  lemma {:induction false} VertexReadAlone(d: Draw, low: int, high: int, v: int)
    requires |d.streams| >= 3 && low <= v <= high
    requires Spanned(d, low, high).Some?
    ensures var k, vb := d.streams[1].stride, Spanned(d, low, high).value;
      (v - low) * k + k <= |vb| && SourceBytes(d, v) == Some(VertexAt(vb, k, v - low))
  {
    var s, k := d.streams[1], d.streams[1].stride;
    FieldInside(v - low, high + 1 - low, k);
    VertexAddress(s.offset, low, v, k);
    WindowWithin(s, s.offset + low * k, (high + 1 - low) * k, (v - low) * k, k);
  }

  lemma {:induction false} IndexBelowSpan(d: Draw, j: nat)
    requires |d.streams| >= 3 && j < d.count && IndexWindow(d).Some? && d.streams[2].stride in {2, 4}
    ensures 0 <= DrawVertices(d)[j] - d.base < Span(4)
  {
    IndexReadAlone(d, j);
    assert Span(2) <= Span(4);
  }

  /** The buffer holds the vertices, w bytes each, counted from low. */
  ghost predicate IndexBufferOf(ib: seq<byte>, w: nat, vertices: seq<int>, low: int) {
    |ib| == |vertices| * w &&
    forall j: nat :: j < |vertices| ==> IndexHolds(ib, w, j, vertices[j] - low)
  }

  ghost predicate IndexHolds(ib: seq<byte>, w: nat, j: nat, v: int) { HoldsAt(ib, j * w, w, v) }

  /** low and high are the least and the greatest of vs. */
  ghost predicate Extremes(vs: seq<int>, low: int, high: int) {
    low in vs && high in vs && forall j: nat :: j < |vs| ==> low <= vs[j] <= high
  }

  /** The vertices named by the draw's indices, each read alone. */
  ghost predicate Drawn(d: Draw, vs: seq<int>)
    requires |d.streams| >= 3
  {
    |vs| == d.count > 0 && forall j: nat :: j < d.count ==> SourceVertex(d, j) == Some(vs[j])
  }

  /** The buffers of g hold the vertices from low to high, and the indices of vs counted from low. */
  ghost predicate Packed(d: Draw, g: Geometry, w: nat, vs: seq<int>, low: int, high: int)
    requires |d.streams| >= 3
  {
    Extremes(vs, low, high) && g.stride == d.streams[1].stride && IndexBufferOf(g.ib, w, vs, low) &&
    Spanned(d, low, high) == Some(g.vb)
  }

  lemma {:induction false} TheExtremes(vs: seq<int>)
    requires vs != []
    ensures Extremes(vs, LeastOf(vs), GreatestOf(vs))
  {
    forall j: nat | j < |vs|
      ensures LeastOf(vs) <= vs[j] <= GreatestOf(vs)
    {
      assert vs[j] in vs;
    }
  }

  lemma {:induction false} ExtremesAreUnique(vs: seq<int>, low: int, high: int)
    requires Extremes(vs, low, high)
    ensures vs != [] && LeastOf(vs) == low && GreatestOf(vs) == high
  {
    var i :| 0 <= i < |vs| && vs[i] == LeastOf(vs);
    var j :| 0 <= j < |vs| && vs[j] == GreatestOf(vs);
  }

  /** The rebased indices, as the packed buffer holds them. */
  lemma {:induction false} RebasedBuffer(d: Draw, vs: seq<int>, low: int, high: int)
    requires |d.streams| >= 3 && IndexWindow(d).Some? && d.streams[2].stride in {2, 4}
    requires vs == DrawVertices(d) && Extremes(vs, low, high) && forall v :: v in vs ==> low <= v
    ensures IndexBufferOf(PackAll(Of(|vs|, 4), Rebased(vs, low)), 4, vs, low)
  {
    var i: nat :| i < |vs| && vs[i] == low;
    IndexBelowSpan(d, i);
    var ib := PackAll(Of(|vs|, 4), Rebased(vs, low));
    SizeOfFields(|vs|, 4);
    forall j: nat | j < |vs|
      ensures IndexHolds(ib, 4, j, vs[j] - low)
    {
      IndexBelowSpan(d, j);
      FieldStartOf(|vs|, 4, j);
      PackedField(Of(|vs|, 4), Rebased(vs, low), j);
    }
  }

  lemma {:induction false} IndicesAreDrawn(d: Draw)
    requires |d.streams| >= 3 && IndexWindow(d).Some? && d.count > 0
    ensures Drawn(d, DrawVertices(d))
  {
    forall j: nat | j < d.count
      ensures SourceVertex(d, j) == Some(DrawVertices(d)[j])
    {
      IndexReadAlone(d, j);
    }
  }

  /** Some index of the buffer names vertex v. */
  ghost predicate Names(ib: seq<byte>, w: nat, count: nat, v: int) {
    exists j: nat :: j < count && IndexHolds(ib, w, j, v)
  }

  lemma {:induction false} BufferNames(ib: seq<byte>, w: nat, vs: seq<int>, low: int, v: int)
    requires IndexBufferOf(ib, w, vs, low) && v in vs
    ensures Names(ib, w, |vs|, v - low)
  {
    var j: nat :| j < |vs| && vs[j] == v;
    assert IndexHolds(ib, w, j, v - low);
  }

  lemma {:induction false} SpannedSize(d: Draw, low: int, high: int)
    requires |d.streams| >= 3 && low <= high && Spanned(d, low, high).Some?
    ensures |Spanned(d, low, high).value| == SpanBytes(d, low, high)
  {
  }

  /** The vertex buffer is a whole number of vertices, and the index buffer names its first and its last. */
  ghost predicate Tight(vb: seq<byte>, stride: nat, ib: seq<byte>, w: nat, count: nat) {
    |ib| == count * w &&
    exists last: nat :: |vb| == (last + 1) * stride && Names(ib, w, count, 0) && Names(ib, w, count, last)
  }

  lemma {:induction false} FormIsTight(d: Draw, g: Geometry, w: nat, vs: seq<int>, low: int, high: int)
    requires |d.streams| >= 3 && Packed(d, g, w, vs, low, high)
    ensures Tight(g.vb, g.stride, g.ib, w, |vs|)
  {
    SpannedSize(d, low, high);
    BufferNames(g.ib, w, vs, low, low);
    BufferNames(g.ib, w, vs, low, high);
  }

  lemma {:induction false} NormalizedForm(d: Draw) returns (vs: seq<int>, low: int, high: int)
    requires Normalize(d).Ok?
    ensures |d.streams| >= 3 && |vs| == d.count && Packed(d, Normalize(d).value, 4, vs, low, high)
    ensures DescriptorsOk(d) && low >= 0 && |Normalize(d).value.vb| <= MAX_VERTEX
    ensures IndexWindow(d).Some? && vs == DrawVertices(d)
    ensures var g := Normalize(d).value; Tight(g.vb, g.stride, g.ib, 4, d.count)
  {
    vs := DrawVertices(d);
    low, high := LeastOf(vs), GreatestOf(vs);
    TheExtremes(vs);
    RebasedBuffer(d, vs, low, high);
    FormIsTight(d, Normalize(d).value, 4, vs, low, high);
  }

  lemma {:induction false} FormPreservesFetches(d: Draw, g: Geometry, w: nat, vs: seq<int>, low: int, high: int, j: nat)
    requires |d.streams| >= 3 && Packed(d, g, w, vs, low, high) && j < |vs|
    ensures j * w + w <= |g.ib| && IndexAt(g.ib, w, j) * g.stride + g.stride <= |g.vb|
    ensures SourceBytes(d, vs[j]) == Some(VertexAt(g.vb, g.stride, IndexAt(g.ib, w, j)))
  {
    assert IndexHolds(g.ib, w, j, vs[j] - low);
    VertexReadAlone(d, low, high, vs[j]);
  }

  /**
   The normalised buffers draw what the captured ones draw: the j-th rebased index lies in the compact vertex
   buffer, and the bytes it fetches there are those of the vertex the j-th source index names.
   */
  lemma {:induction false} NormalizationPreservesFetches(d: Draw, j: nat)
    requires Normalize(d).Ok? && j < d.count
    ensures var g := Normalize(d).value;
      |d.streams| >= 3 && j * 4 + 4 <= |g.ib| && SourceVertex(d, j).Some? &&
      IndexAt(g.ib, 4, j) * g.stride + g.stride <= |g.vb| &&
      SourceBytes(d, SourceVertex(d, j).value) == Some(VertexAt(g.vb, g.stride, IndexAt(g.ib, 4, j)))
  {
    var vs, low, high := NormalizedForm(d);
    IndexReadAlone(d, j);
    FormPreservesFetches(d, Normalize(d).value, 4, vs, low, high, j);
  }

  /** The compact buffer holds the vertices from the least to the greatest drawn and no others: both ends are drawn. */
  lemma {:induction false} NothingElseIsCopied(d: Draw)
    requires Normalize(d).Ok?
    ensures var g := Normalize(d).value; Tight(g.vb, g.stride, g.ib, 4, d.count)
  {
    var _, _, _ := NormalizedForm(d);
  }

  // ---------------------------------------------------------------- which draws normalise

  /** The vertex the draw's j-th index names is there to be fetched. */
  ghost predicate FetchCaptured(d: Draw, j: nat)
    requires |d.streams| >= 3
  {
    SourceVertex(d, j).Some? && SourceVertex(d, j).value >= 0 && SourceBytes(d, SourceVertex(d, j).value).Some?
  }

  /** Every vertex the draw names is there to be fetched. */
  ghost predicate EveryFetchCaptured(d: Draw)
    requires |d.streams| >= 3
  {
    forall j: nat :: j < d.count ==> FetchCaptured(d, j)
  }

  /** No two vertices drawn lie further apart than the format's bound. */
  ghost predicate SpanFits(d: Draw)
    requires |d.streams| >= 3
  {
    forall i: nat, j: nat :: i < d.count && j < d.count && SourceVertex(d, i).Some? && SourceVertex(d, j).Some? ==>
      SpanBytes(d, SourceVertex(d, i).value, SourceVertex(d, j).value) <= 262144
  }

  ghost predicate DescriptorsOk(d: Draw) {
    |d.streams| >= 3 && 0 < d.streams[1].stride <= 256 && d.streams[2].stride in {2, 4} && d.count > 0 &&
    Described(d.layout)
  }

  /** One to thirty-two elements, each named by one to sixty-three ASCII characters. */
  predicate Described(layout: seq<Element>) {
    0 < |layout| <= 32 && forall e :: e in layout ==> Named(e.semantic)
  }

  predicate Named(s: string) { 0 < |s| <= 63 && forall c :: c in s ==> c < 128 as char }

  lemma NamedIff(s: string)
    ensures SemanticOk(s) <==> Named(s)
  {
    assert forall i: nat :: i < |s| ==> s[i] in s;
  }

  lemma {:induction false} DescribedIff(layout: seq<Element>)
    ensures LayoutOk(layout) <==> Described(layout)
  {
    hide SemanticOk, Named;
    forall i: nat | i < |layout|
      ensures SemanticOk(layout[i].semantic) <==> Named(layout[i].semantic)
    {
      NamedIff(layout[i].semantic);
    }
    assert forall i: nat :: i < |layout| ==> layout[i] in layout;
  }

  /** The windows at both ends make one window. */
  lemma {:induction false} WindowsJoin(s: BoundStream, a: int, b: int, k: nat)
    requires a <= b && Window(s, a, k).Some? && Window(s, b, k).Some?
    ensures Window(s, a, b + k - a).Some?
  {
  }

  lemma {:induction false} IndexWindowJoins(d: Draw)
    requires |d.streams| >= 3 && d.count > 0 && SourceVertex(d, 0).Some? && SourceVertex(d, d.count - 1).Some?
    ensures IndexWindow(d).Some?
  {
    var w, n := d.streams[2].stride, d.count;
    AddressStep(d, n - 1);
    assert (n - 1) * w + w == n * w;
    WindowsJoin(d.streams[2], IndexAddress(d, 0), IndexAddress(d, n - 1), w);
  }

  /**
   A draw normalises exactly when its descriptors are sound, every index and every vertex it fetches lies in what was
   captured, no vertex is before the first, and the vertices drawn span at most the format's bound.
   */
  lemma {:induction false} NormalizesIff(d: Draw)
    ensures Normalize(d).Ok? <==> DescriptorsOk(d) && EveryFetchCaptured(d) && SpanFits(d)
  {
    DescribedIff(d.layout);
    hide LayoutOk, Described;
    hide PackAll, Rebased, LeastOf, GreatestOf, SourceVertex, SourceBytes, Packed, Tight, Unpack, DrawVertices;
    if Normalize(d).Ok? {
      var vs, low, high := NormalizedForm(d);
      IndicesAreDrawn(d);
      FormIsCaptured(d, Normalize(d).value, 4, vs, low, high);
    }
    if DescriptorsOk(d) && EveryFetchCaptured(d) && SpanFits(d) {
      assert FetchCaptured(d, 0) && FetchCaptured(d, d.count - 1);
      IndexWindowJoins(d);
      IndicesAreDrawn(d);
      var vs := DrawVertices(d);
      TheExtremes(vs);
      CapturedSpan(d, vs, LeastOf(vs), GreatestOf(vs));
    }
  }

  lemma {:induction false} FormIsCaptured(d: Draw, g: Geometry, w: nat, vs: seq<int>, low: int, high: int)
    requires |d.streams| >= 3 && Drawn(d, vs) && Packed(d, g, w, vs, low, high) && low >= 0 && |g.vb| <= MAX_VERTEX
    ensures EveryFetchCaptured(d) && SpanFits(d)
  {
    hide SourceVertex, IndexBufferOf, Unpack;
    forall j: nat | j < d.count
      ensures FetchCaptured(d, j)
    {
      VertexReadAlone(d, low, high, vs[j]);
    }
    forall i: nat, j: nat | i < d.count && j < d.count
      ensures SpanBytes(d, vs[i], vs[j]) <= MAX_VERTEX
    {
      TimesGrows(vs[j] + 1 - vs[i], high + 1 - low, d.streams[1].stride);
    }
  }

  lemma {:induction false} CapturedSpan(d: Draw, vs: seq<int>, low: int, high: int)
    requires |d.streams| >= 3 && Drawn(d, vs) && EveryFetchCaptured(d) && SpanFits(d) && Extremes(vs, low, high)
    ensures low >= 0 && Spanned(d, low, high).Some? && |Spanned(d, low, high).value| <= MAX_VERTEX
  {
    var first: nat :| first < |vs| && vs[first] == low;
    var last: nat :| last < |vs| && vs[last] == high;
    assert FetchCaptured(d, first) && FetchCaptured(d, last);
    assert SpanBytes(d, vs[first], vs[last]) <= MAX_VERTEX;
    EndsMakeSpan(d, low, high);
  }

  lemma {:induction false} EndsMakeSpan(d: Draw, low: int, high: int)
    requires |d.streams| >= 3 && low <= high && SourceBytes(d, low).Some? && SourceBytes(d, high).Some?
    ensures Spanned(d, low, high).Some? && |Spanned(d, low, high).value| == SpanBytes(d, low, high)
  {
    var s := d.streams[1];
    VertexAddress(s.offset, low, high, s.stride);
    assert (high + 1 - low) * s.stride == (high - low) * s.stride + s.stride;
    WindowsJoin(s, s.offset + low * s.stride, s.offset + high * s.stride, s.stride);
  }

  /** What is said of a draw: the first check that fails. */
  ghost predicate Told(d: Draw, r: Result<Geometry, ExportError>) {
    if |d.streams| < 3 then r == Err(GeometryDescriptorMissing)
    else if !(0 < d.streams[1].stride <= 256 && d.streams[2].stride in {2, 4}) then r == Err(GeometryDescriptorInvalid)
    else if IndexWindow(d).None? then r == Err(IndexWindowIncomplete)
    else if d.count == 0 || exists j: nat :: j < d.count && Negative(d, j) then r == Err(NegativeVertexIndex)
    else if !EveryFetchCaptured(d) then r == Err(VertexWindowIncomplete)
    else if !SpanFits(d) then r == Err(VertexWindowTooLarge)
    else if !Described(d.layout) then r == Err(LayoutInvalid)
    else r.Ok?
  }

  ghost predicate Negative(d: Draw, j: nat)
    requires |d.streams| >= 3
  {
    SourceVertex(d, j).Some? && SourceVertex(d, j).value < 0
  }

  lemma {:induction false} NormalizeTells(d: Draw)
    ensures Told(d, Normalize(d))
  {
    hide PackAll, Rebased, LeastOf, GreatestOf, SourceVertex, SourceBytes, Unpack, DrawVertices, EveryFetchCaptured,
      SpanFits, LayoutOk, Compact, Described;
    DescribedIff(d.layout);
    if |d.streams| >= 3 && 0 < d.streams[1].stride <= MAX_STRIDE && d.streams[2].stride in {2, 4} &&
      IndexWindow(d).Some? && d.count > 0 {
      var vs := DrawVertices(d);
      IndicesAreDrawn(d);
      TheExtremes(vs);
      var low, high := LeastOf(vs), GreatestOf(vs);
      var first: nat :| first < |vs| && vs[first] == low;
      if low < 0 {
        assert Negative(d, first);
      } else {
        assert forall j: nat :: j < d.count ==> !Negative(d, j);
        CompactTells(d, vs, low, high);
      }
    }
  }

  lemma {:induction false} CompactTells(d: Draw, vs: seq<int>, low: int, high: int)
    requires |d.streams| >= 3 && d.streams[1].stride > 0 && d.streams[2].stride in {2, 4} && IndexWindow(d).Some?
    requires d.count > 0 && vs == DrawVertices(d) && low == LeastOf(vs) && high == GreatestOf(vs) && low >= 0
    ensures var r := Compact(d, vs);
      if !EveryFetchCaptured(d) then r == Err(VertexWindowIncomplete)
      else if !SpanFits(d) then r == Err(VertexWindowTooLarge)
      else if !LayoutOk(d.layout) then r == Err(LayoutInvalid)
      else r.Ok?
  {
    hide PackAll, Rebased, LeastOf, GreatestOf, SourceVertex, SourceBytes, Unpack, DrawVertices, LayoutOk, IndexWindow;
    IndicesAreDrawn(d);
    TheExtremes(vs);
    if Spanned(d, low, high).Some? {
      SpanIsCaptured(d, vs, low, high);
      SpanIsJudged(d, vs, low, high);
    } else if EveryFetchCaptured(d) {
      var first: nat :| first < |vs| && vs[first] == low;
      var last: nat :| last < |vs| && vs[last] == high;
      assert FetchCaptured(d, first) && FetchCaptured(d, last);
      EndsMakeSpan(d, low, high);
    }
  }

  lemma {:induction false} SpanIsCaptured(d: Draw, vs: seq<int>, low: int, high: int)
    requires |d.streams| >= 3 && Drawn(d, vs) && Extremes(vs, low, high) && Spanned(d, low, high).Some? && low >= 0
    ensures EveryFetchCaptured(d)
  {
    hide SourceVertex, Unpack;
    forall j: nat | j < d.count
      ensures FetchCaptured(d, j)
    {
      VertexReadAlone(d, low, high, vs[j]);
    }
  }

  lemma SpanIsBytes(d: Draw, low: int, high: int)
    requires |d.streams| >= 3 && low <= high && Spanned(d, low, high).Some?
    ensures |Spanned(d, low, high).value| == SpanBytes(d, low, high)
  {
  }

  lemma SpanGrows(d: Draw, v: int, v': int, low: int, high: int)
    requires |d.streams| >= 3 && low <= v && v' <= high
    ensures SpanBytes(d, v, v') <= SpanBytes(d, low, high)
  {
    TimesGrows(v' + 1 - v, high + 1 - low, d.streams[1].stride);
  }

  lemma {:induction false} SpanIsJudged(d: Draw, vs: seq<int>, low: int, high: int)
    requires |d.streams| >= 3 && Drawn(d, vs) && Extremes(vs, low, high) && Spanned(d, low, high).Some?
    ensures SpanFits(d) <==> |Spanned(d, low, high).value| <= MAX_VERTEX
  {
    hide SourceVertex, Unpack, SpanBytes;
    SpanIsBytes(d, low, high);
    hide Spanned;
    var first: nat :| first < |vs| && vs[first] == low;
    var last: nat :| last < |vs| && vs[last] == high;
    assert SourceVertex(d, first) == Some(low) && SourceVertex(d, last) == Some(high);
    forall i: nat, j: nat | i < d.count && j < d.count
      ensures SpanBytes(d, vs[i], vs[j]) <= SpanBytes(d, low, high)
    {
      SpanGrows(d, vs[i], vs[j], low, high);
    }
  }

  // ---------------------------------------------------------------- normalising twice

  /** A whole buffer bound from its first byte. */
  function Whole(stride: nat, data: seq<byte>): BoundStream { BoundStream(0, stride, |data|, None, data) }

  /** The normalised geometry drawn again: both buffers whole, w-byte indices, no base. */
  function Redraw(d: Draw, g: Geometry, w: nat): Draw
    requires |d.streams| >= 3
  {
    d.(start := 0, base := 0, streams := [d.streams[0], Whole(g.stride, g.vb), Whole(w, g.ib)])
  }

  lemma {:induction false} WholeWindow(stride: nat, data: seq<byte>, address: int, n: nat)
    requires address == 0 && n == |data|
    ensures Window(Whole(stride, data), address, n) == Some(data)
  {
    assert data[0..n] == data;
  }

  lemma {:induction false} RedrawnIndex(d: Draw, g: Geometry, w: nat, j: nat)
    requires |d.streams| >= 3 && j * w + w <= |g.ib|
    ensures SourceVertex(Redraw(d, g, w), j) == Some(IndexAt(g.ib, w, j))
  {
    assert IndexAddress(Redraw(d, g, w), j) == j * w;
  }

  lemma {:induction false} RedrawnVertices(d: Draw, g: Geometry, w: nat, vs: seq<int>, low: int)
    requires |d.streams| >= 3 && IndexBufferOf(g.ib, w, vs, low) && |vs| == d.count
    ensures IndexWindow(Redraw(d, g, w)) == Some(g.ib)
    ensures Shifted(vs, DrawVertices(Redraw(d, g, w)), low)
  {
    var e := Redraw(d, g, w);
    assert IndexAddress(e, 0) == 0;
    WholeWindow(w, g.ib, IndexAddress(e, 0), d.count * w);
    forall j: nat | j < |vs|
      ensures DrawVertices(e)[j] == vs[j] - low
    {
      assert IndexHolds(g.ib, w, j, vs[j] - low);
      IndexReadAlone(e, j);
      RedrawnIndex(d, g, w, j);
    }
  }

  /** Each vertex of again is that of vs counted from low. */
  ghost predicate Shifted(vs: seq<int>, again: seq<int>, low: int) {
    |again| == |vs| && forall j: nat :: j < |vs| ==> again[j] == vs[j] - low
  }

  lemma {:induction false} ShiftedExtremes(vs: seq<int>, again: seq<int>, low: int, high: int)
    requires Extremes(vs, low, high) && Shifted(vs, again, low)
    ensures Extremes(again, 0, high - low)
  {
    var first: nat :| first < |vs| && vs[first] == low;
    var last: nat :| last < |vs| && vs[last] == high;
    assert again[first] == 0 && again[last] == high - low;
  }

  lemma {:induction false} ShiftedRebased(vs: seq<int>, again: seq<int>, low: int)
    requires Shifted(vs, again, low) && (forall v :: v in vs ==> low <= v) && (forall v :: v in again ==> 0 <= v)
    ensures Rebased(again, 0) == Rebased(vs, low)
  {
    hide Rebased;
    var a, b := Rebased(again, 0), Rebased(vs, low);
    assert forall j: nat :: j < |a| ==> a[j] == b[j];
  }

  lemma {:induction false} RedrawnSpan(d: Draw, g: Geometry, w: nat, high: nat)
    requires |d.streams| >= 3 && |g.vb| == (high + 1) * g.stride
    ensures Spanned(Redraw(d, g, w), 0, high) == Some(g.vb)
  {
    WholeWindow(g.stride, g.vb, 0, (high + 1) * g.stride);
  }

  lemma {:induction false} RedrawnNormalizes(d: Draw, g: Geometry, w: nat, vs: seq<int>, low: int, high: int)
    requires |d.streams| >= 3 && Packed(d, g, w, vs, low, high) && |vs| == d.count
    ensures IndexWindow(Redraw(d, g, w)) == Some(g.ib)
    ensures var again := DrawVertices(Redraw(d, g, w));
      Extremes(again, 0, high - low) && Shifted(vs, again, low) && Spanned(Redraw(d, g, w), 0, high - low) == Some(g.vb)
  {
    RedrawnVertices(d, g, w, vs, low);
    ShiftedExtremes(vs, DrawVertices(Redraw(d, g, w)), low, high);
    SpannedSize(d, low, high);
    RedrawnSpan(d, g, w, high - low);
  }

  /** The result has the buffers of g. */
  predicate SameBuffers(r: Result<Geometry, ExportError>, g: Geometry) {
    r.Ok? && r.value.vb == g.vb && r.value.ib == g.ib
  }

  lemma {:induction false} RedrawnCompacts(d: Draw, g: Geometry, e: Draw, vs: seq<int>, again: seq<int>, low: int,
      high: int)
    requires |d.streams| >= 3 && |e.streams| >= 3 && Shifted(vs, again, low) && low <= high
    requires (forall v :: v in vs ==> low <= v) && (forall v :: v in again ==> 0 <= v)
    requires Spanned(e, 0, high - low) == Some(g.vb) && |g.vb| <= MAX_VERTEX && LayoutOk(e.layout)
    requires CompactSpan(d, vs, low, high) == Ok(g)
    ensures SameBuffers(CompactSpan(e, again, 0, high - low), g)
  {
    ShiftedRebased(vs, again, low);
  }

  lemma {:induction false} CompactsAgain(d: Draw, g: Geometry, e: Draw, vs: seq<int>, again: seq<int>, low: int,
      high: int)
    requires |d.streams| >= 3 && |e.streams| >= 3 && Shifted(vs, again, low) && Extremes(vs, low, high) &&
        Extremes(again, 0, high - low)
    requires Spanned(e, 0, high - low) == Some(g.vb) && |g.vb| <= MAX_VERTEX && LayoutOk(e.layout)
    requires Compact(d, vs) == Ok(g)
    ensures LeastOf(again) == 0 && SameBuffers(Compact(e, again), g)
  {
    hide CompactSpan, Rebased, PackAll, Extremes, LayoutOk;
    ExtremesAreUnique(vs, low, high);
    ExtremesAreUnique(again, 0, high - low);
    RedrawnCompacts(d, g, e, vs, again, low, high);
  }

  /** A normalised geometry is its own normal form. */
  lemma {:induction false} NormalizeIsIdempotent(d: Draw)
    requires Normalize(d).Ok?
    ensures |d.streams| >= 3 && SameBuffers(Normalize(Redraw(d, Normalize(d).value, 4)), Normalize(d).value)
  {
    hide Packed, Extremes, Shifted, Spanned, PackAll, Rebased, LeastOf, GreatestOf, LayoutOk, SpanBytes;
    var vs, low, high := NormalizedForm(d);
    var g := Normalize(d).value;
    RedrawnNormalizes(d, g, 4, vs, low, high);
    CompactsAgain(d, g, Redraw(d, g, 4), vs, DrawVertices(Redraw(d, g, 4)), low, high);
  }

  // ---------------------------------------------------------------- an example

  /**
   The draw of the exporter's own self test: three 16-bit indices from the fourth on, base -1, on windows of both
   buffers.
   */
  function Sample(layout: seq<Element>): Draw {
    var vb := BoundStream(4, 4, 128, Some(8), [0, 1, 2, 3, 4, 5, 6, 7, 8, 9, 10, 11]);
    var ib := BoundStream(0, 2, 64, Some(6), [2, 0, 4, 0, 3, 0]);
    Draw(0xFFFF_FFFE, 0x7B0DC42D383F694C, 1, 3, 3, -1, 1, 20, 10, 10, layout, [BoundStream(0, 8, 32, Some(0), []), vb,
        ib], [0, 1, 2], [])
  }

  lemma {:induction false} PackThree(w: nat, a: nat, b: nat, c: nat)
    ensures PackAll(Of(3, w), [a, b, c]) == Pack(w, a) + (Pack(w, b) + Pack(w, c))
  {
    hide Pack, Span;
    var fmt, words := Of(3, w), [a, b, c];
    assert fmt == [w, w, w] && fmt[1..] == [w, w] && fmt[1..][1..] == [w];
    assert words[1..] == [b, c] && words[1..][1..] == [c];
    assert PackAll([w], [c]) == Pack(w, c) + PackAll([], []);
    assert PackAll([w, w], [b, c]) == Pack(w, b) + PackAll([w], [c]);
    assert PackAll([w, w, w], [a, b, c]) == Pack(w, a) + PackAll([w, w], [b, c]);
  }

  lemma {:induction false} PackPair(v: byte)
    ensures Pack(2, v) == [v, 0]
  {
    assert Pack(1, 0) == [0] + Pack(0, 0);
    assert Pack(2, v) == [v] + Pack(1, 0);
  }

  lemma {:induction false} PackQuad(v: byte)
    ensures Pack(4, v) == [v, 0, 0, 0]
  {
    assert Pack(2, 0) == [0, 0] by { PackPair(0); }
    assert Pack(3, 0) == [0] + Pack(2, 0);
    assert Pack(4, v) == [v] + Pack(3, 0);
  }

  lemma {:induction false} SampleVertices(layout: seq<Element>)
    ensures IndexWindow(Sample(layout)).Some? && DrawVertices(Sample(layout)) == [1, 3, 2]
  {
    hide Pack, PackAll, UnpackAll;
    var raw: seq<byte> := [2, 0, 4, 0, 3, 0];
    assert Sample(layout).streams[2].data[0..6] == raw;
    PackThree(2, 2, 4, 3);
    PackPair(2); PackPair(4); PackPair(3);
    assert Span(1) == 256 && Span(2) == 65536;
    UnpackAllPackAll(Of(3, 2), [2, 4, 3]);
    assert raw == PackAll(Of(3, 2), [2, 4, 3]);
    assert IndexWindow(Sample(layout)) == Some(raw);
    SizeOfFields(3, 2);
    var vs := Vertices(3, 2, -1, raw);
    assert DrawVertices(Sample(layout)) == vs && vs[0] == 1 && vs[1] == 3 && vs[2] == 2;
  }

  lemma {:induction false} SampleIndices()
    ensures PackAll(Of(3, 4), [0, 2, 1]) == [0, 0, 0, 0, 2, 0, 0, 0, 1, 0, 0, 0]
  {
    hide Pack, PackAll;
    PackThree(4, 0, 2, 1);
    PackQuad(0); PackQuad(2); PackQuad(1);
  }

  /** Its normal form: the twelve bytes whole, drawn by the indices 0, 2, 1. */
  lemma {:induction false} SampleNormalizes(layout: seq<Element>)
    requires LayoutOk(layout)
    ensures var r := Normalize(Sample(layout));
      r.Ok? && r.value.vb == [0, 1, 2, 3, 4, 5, 6, 7, 8, 9, 10, 11] && r.value.sourceFirst == 1 &&
      r.value.ib == [0, 0, 0, 0, 2, 0, 0, 0, 1, 0, 0, 0]
  {
    hide PackAll, IndexWindow, DrawVertices;
    var d := Sample(layout);
    SampleVertices(layout);
    assert Extremes([1, 3, 2], 1, 3);
    ExtremesAreUnique([1, 3, 2], 1, 3);
    assert d.streams[1].data[0..12] == d.streams[1].data;
    assert Rebased([1, 3, 2], 1) == [0, 2, 1];
    SampleIndices();
  }
}
