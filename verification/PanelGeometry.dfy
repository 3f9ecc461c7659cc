/**
 The fetch-window check of tools/eye_panel_snapshot.py: whether every vertex and instance a panel draw fetches lies in
 the bytes the capture retained, decided from the extreme indices alone.
 */
module PanelGeometry {
  import opened Prelude
  import opened Bytes

  datatype GeometryError =
    | InvalidNumber | InvalidBase | EmptyDraw | UnsupportedKind | IndexBufferUnavailable | UnsupportedIndexFormat
    | IndexCaptureOrigin | IndexWindow | OnlyStripCuts | NegativeVertex | LayoutUnavailable | InvalidSemantic
    | DuplicateSemantic | UnsupportedElement | VertexBufferUnavailable | BindingMismatch | ZeroInstanceStep
    | VertexStep | OutsideWindow

  const MAX_NUMBER: int := 0xFFFF_FFFF
  const APPEND: int := 0xFFFF_FFFF
  const MAX_ELEMENTS: nat := 32
  const MAX_SLOTS: int := 32
  const R32_UINT: int := 42
  const R16_UINT: int := 57

  // ---------------------------------------------------------------- captured metadata

  datatype IndexBlob = IndexBlob(complete: bool, format: int, offset: Option<int>, bindingOffset: int,
      payload: seq<byte>)

  datatype VertexBlob = VertexBlob(complete: bool, stride: Option<int>, bindingOffset: Option<int>, offset: Option<int>,
      inputClass: Option<int>, step: Option<int>, payload: seq<byte>)

  datatype Element = Element(semantic: string, index: int, format: int, slot: int, offset: int, cls: int, step: int)

  datatype Draw = Draw(count: Option<int>, instances: Option<int>, start: Option<int>, startInstance: Option<int>,
      base: int, kind: char, topology: int, ib: Option<IndexBlob>, vbs: map<int, VertexBlob>, layout: seq<Element>)

  predicate IsNumber(v: Option<int>) {
    v.Some? && 0 <= v.value <= MAX_NUMBER
  }

  /** Byte size and natural alignment of the vertex formats the family uses. */
  function Layout(fmt: int): Option<(nat, nat)> {
    if fmt in {2, 3, 4} then Some((16, 4))
    else if fmt in {6, 7, 8} then Some((12, 4))
    else if fmt in {10, 11, 12, 13, 14} then Some((8, 2))
    else if fmt in {16, 17, 18} then Some((8, 4))
    else if fmt in {24, 25, 26} then Some((4, 4))
    else if fmt in {28, 29, 30, 31, 32} then Some((4, 1))
    else if fmt in {34, 35, 36, 37, 38} then Some((4, 2))
    else if fmt in {41, 42, 43} then Some((4, 4))
    else if fmt in {49, 50, 51, 52} then Some((2, 1))
    else if fmt in {54, 56, 57, 58, 59} then Some((2, 2))
    else if fmt in {61, 62, 63, 64} then Some((1, 1))
    else None
  }

  /** The formats by their components: how many, and of how many bytes. */
  lemma FormatTable(fmt: int)
    ensures Layout(fmt) ==
      if 2 <= fmt <= 4 then Some((4 * 4, 4))
      else if 6 <= fmt <= 8 then Some((3 * 4, 4))
      else if 10 <= fmt <= 14 then Some((4 * 2, 2))
      else if 16 <= fmt <= 18 then Some((2 * 4, 4))
      else if 24 <= fmt <= 26 then Some((4, 4))
      else if 28 <= fmt <= 32 then Some((4 * 1, 1))
      else if 34 <= fmt <= 38 then Some((2 * 2, 2))
      else if 41 <= fmt <= 43 then Some((1 * 4, 4))
      else if 49 <= fmt <= 52 then Some((2 * 1, 1))
      else if fmt == 54 || 56 <= fmt <= 59 then Some((1 * 2, 2))
      else if 61 <= fmt <= 64 then Some((1, 1))
      else None
  {
  }

  function SizeOf(fmt: int): nat { if Layout(fmt).Some? then Layout(fmt).value.0 else 0 }

  function AlignOf(fmt: int): (a: nat)
    ensures a > 0
  {
    if Layout(fmt).Some? then Layout(fmt).value.1 else 1
  }

  /** Semantics are the same when name, whatever its case, and index are; upper is the host's own upper-casing. */
  function Key(upper: string -> string, e: Element): (string, int) { (upper(e.semantic), e.index) }

  // ---------------------------------------------------------------- what the draw fetches

  predicate Indexed(d: Draw) { d.kind in {'X', 'I'} }

  function IndexWidth(ib: IndexBlob): nat { if ib.format == R16_UINT then 2 else 4 }

  /** The indices of a payload, w bytes each. */
  function Indices(w: nat, s: seq<byte>): seq<nat>
    requires w > 0
  {
    if |s| < w then [] else [Unpack(s[..w])] + Indices(w, s[w..])
  }

  /** Strips are cut by the all-ones index. */
  predicate IsCut(d: Draw, w: nat, index: nat) {
    d.topology in {3, 5, 11, 13} && index == Span(w) - 1
  }

  /** That is 0xFFFF or 0xFFFFFFFF, in the strip topologies. */
  lemma CutIff(d: Draw, w: nat, index: nat)
    requires w == 2 || w == 4
    ensures IsCut(d, w, index) <==>
      (d.topology == 3 || d.topology == 5 || d.topology == 11 || d.topology == 13) &&
      index == if w == 2 then 0xFFFF else 0xFFFF_FFFF
  {
    assert Span(2) == 0x1_0000;
    assert Span(4) == 256 * (256 * Span(2));
  }

  /** Index j of a payload is the number in its j-th w bytes. */
  lemma {:induction false} IndexAt(w: nat, s: seq<byte>, j: nat)
    requires w > 0 && j < |Indices(w, s)|
    ensures HoldsAt(s, w * j, w, Indices(w, s)[j])
    decreases j
  {
    hide Unpack;
    if j > 0 {
      IndexAt(w, s[w..], j - 1);
      HoldsLater(s, w, w * (j - 1), w, Indices(w, s)[j]);
      assert w + w * (j - 1) == w * j;
    } else {
      assert s[..w] == s[w * 0..w * 0 + w];
    }
  }

  lemma {:induction false} IndexCount(w: nat, s: seq<byte>)
    requires w > 0
    ensures w * |Indices(w, s)| <= |s| < w * |Indices(w, s)| + w
    decreases |s|
  {
    hide Unpack;
    if |s| >= w {
      IndexCount(w, s[w..]);
      assert w * |Indices(w, s)| == w + w * |Indices(w, s[w..])|;
    }
  }

  /** Some index, cuts aside, or some number of the range makes the draw fetch vertex v. */
  ghost predicate FetchesVertex(d: Draw, v: int)
    requires Indexed(d) ==> d.ib.Some?
    requires IsNumber(d.start) && IsNumber(d.count)
  {
    if Indexed(d) then
      var w := IndexWidth(d.ib.value);
      exists index :: index in Indices(w, d.ib.value.payload) && !IsCut(d, w, index) && v == index + d.base
    else d.start.value <= v < d.start.value + d.count.value
  }

  function AlignUp(n: int, a: nat): int
    requires a > 0
  {
    (n + a - 1) / a * a
  }

  /** That is the least multiple of the alignment that is not below n. */
  lemma {:induction false} AlignUpIsLeast(n: int, a: nat, m: int)
    requires a > 0
    ensures n <= AlignUp(n, a) < n + a && AlignUp(n, a) % a == 0
    ensures n <= m * a ==> AlignUp(n, a) <= m * a
  {
    var q := (n + a - 1) / a;
    assert q * a + (n + a - 1) % a == n + a - 1;
    MultipleOf(q, a);
    if m < q {
      TimesGrows(m + 1, q, a);
    } else {
      TimesGrows(q, m, a);
    }
  }

  lemma {:induction false} MultipleOf(q: int, a: nat)
    requires a > 0
    ensures q * a % a == 0
  {
    var d := q - q * a / a;
    assert d * a == q * a % a;
    if d >= 1 {
      TimesGrows(1, d, a);
    } else if d < 0 {
      TimesGrows(d, -1, a);
    }
  }

  /** Where an element lies in its vertex: as given, or appended after the last element of its slot. */
  function OffsetOf(layout: seq<Element>, i: nat): int
    requires i < |layout|
    decreases i, 1
  {
    var e := layout[i];
    if e.offset == APPEND then AlignUp(EndOf(layout, i, e.slot), AlignOf(e.format)) else e.offset
  }

  /** Where the last of the first n elements in a slot ends; zero when there is none. */
  function EndOf(layout: seq<Element>, n: nat, slot: int): int
    requires n <= |layout|
    decreases n, 0
  {
    if n == 0 then 0
    else if layout[n - 1].slot == slot then OffsetOf(layout, n - 1) + SizeOf(layout[n - 1].format)
    else EndOf(layout, n - 1, slot)
  }

  lemma {:induction false} EndIs(layout: seq<Element>, n: nat, slot: int, p: nat)
    requires p < n <= |layout| && layout[p].slot == slot && forall q: nat :: p < q < n ==> layout[q].slot != slot
    ensures EndOf(layout, n, slot) == OffsetOf(layout, p) + SizeOf(layout[p].format)
  {
    hide OffsetOf;
    if p < n - 1 {
      EndIs(layout, n - 1, slot, p);
    }
  }

  /** An appended element comes aligned right after the one before it in its slot. */
  lemma {:induction false} AppendedAfter(layout: seq<Element>, i: nat, p: nat)
    requires p < i < |layout| && layout[i].offset == 0xFFFF_FFFF && layout[p].slot == layout[i].slot
    requires forall q: nat :: p < q < i ==> layout[q].slot != layout[i].slot
    ensures var end := OffsetOf(layout, p) + SizeOf(layout[p].format);
      end <= OffsetOf(layout, i) < end + AlignOf(layout[i].format) &&
      OffsetOf(layout, i) % AlignOf(layout[i].format) == 0
  {
    EndIs(layout, i, layout[i].slot, p);
    AlignUpIsLeast(EndOf(layout, i, layout[i].slot), AlignOf(layout[i].format), 0);
    hide AlignUp, EndOf;
  }

  /** The first appended element of a slot comes at its start. */
  lemma {:induction false} AppendedFirst(layout: seq<Element>, i: nat)
    requires i < |layout| && layout[i].offset == 0xFFFF_FFFF
    requires forall q: nat :: q < i ==> layout[q].slot != layout[i].slot
    ensures OffsetOf(layout, i) == 0
  {
    NoEnd(layout, i, layout[i].slot);
    var a := AlignOf(layout[i].format);
    AlignUpIsLeast(0, a, 0);
    hide AlignUp, EndOf;
  }

  lemma {:induction false} NoEnd(layout: seq<Element>, n: nat, slot: int)
    requires n <= |layout| && forall q: nat :: q < n ==> layout[q].slot != slot
    ensures EndOf(layout, n, slot) == 0
  {
    if n > 0 {
      NoEnd(layout, n - 1, slot);
    }
  }

  /** The fetch of element i at vertex or instance index v lies in the bytes captured of its buffer. */
  predicate Inside(d: Draw, i: nat, v: int)
    requires i < |d.layout| && BoundOk(d, d.layout[i])
  {
    var vb := d.vbs[d.layout[i].slot];
    var first := vb.bindingOffset.value + v * vb.stride.value + OffsetOf(d.layout, i);
    vb.offset.value <= first && first + SizeOf(d.layout[i].format) <= vb.offset.value + |vb.payload|
  }

  /** Every fetch of every element lies in its window: each vertex drawn, each instance j at index start + j / step. */
  ghost predicate EveryFetchInside(d: Draw)
    requires FieldsOk(d)
  {
    forall i :: 0 <= i < |d.layout| ==> ElementInside(d, i)
  }

  ghost predicate ElementInside(d: Draw, i: nat)
    requires HeadOk(d) && i < |d.layout| && ElementOk(d, i)
  {
    var e := d.layout[i];
    if e.cls == 0 then forall v :: FetchesVertex(d, v) ==> Inside(d, i, v)
    else forall j :: 0 <= j < d.instances.value ==> Inside(d, i, d.startInstance.value + j / e.step)
  }

  // ---------------------------------------------------------------- the format checks

  predicate IndexBlobOk(d: Draw) {
    d.ib.Some? && d.ib.value.complete && d.ib.value.format in {R32_UINT, R16_UINT} && IsNumber(d.start) &&
    IsNumber(d.count) &&
    d.ib.value.offset == Some(d.ib.value.bindingOffset + d.start.value * IndexWidth(d.ib.value)) &&
    |d.ib.value.payload| == d.count.value * IndexWidth(d.ib.value)
  }

  /** The draw's own numbers, its index buffer, and that it fetches some vertex and none before the first. */
  ghost predicate HeadOk(d: Draw) {
    IsNumber(d.count) && IsNumber(d.instances) && IsNumber(d.start) && IsNumber(d.startInstance) &&
    -0x8000_0000 <= d.base < 0x8000_0000 && d.count.value > 0 && d.instances.value > 0 &&
    d.kind in {'X', 'I', 'N', 'V'} &&
    (Indexed(d) ==> IndexBlobOk(d)) &&
    (exists v :: FetchesVertex(d, v)) && forall v :: FetchesVertex(d, v) ==> v >= 0
  }

  predicate BoundOk(d: Draw, e: Element) {
    e.slot in d.vbs &&
    var vb := d.vbs[e.slot];
    vb.complete && IsNumber(vb.stride) && IsNumber(vb.bindingOffset) && IsNumber(vb.offset) && vb.stride.value > 0 &&
    vb.inputClass == Some(e.cls) && vb.step == Some(e.step)
  }

  predicate ElementOk(d: Draw, i: nat)
    requires i < |d.layout|
  {
    var e := d.layout[i];
    e.semantic != "" && IsNumber(Some(e.index)) && IsNumber(Some(e.slot)) && IsNumber(Some(e.offset)) &&
    IsNumber(Some(e.cls)) &&
    IsNumber(Some(e.step)) && e.slot < MAX_SLOTS && Layout(e.format).Some? && e.cls in {0, 1} && BoundOk(d, e) &&
    (e.cls == 0 <==> e.step == 0)
  }

  ghost predicate FieldsOk(d: Draw) {
    HeadOk(d) && 0 < |d.layout| <= MAX_ELEMENTS && forall i :: 0 <= i < |d.layout| ==> ElementOk(d, i)
  }

  /** No earlier element has the semantic of the i-th. */
  predicate NewSemantic(upper: string -> string, layout: seq<Element>, i: nat)
    requires i < |layout|
  {
    forall j :: 0 <= j < i ==> Key(upper, layout[j]) != Key(upper, layout[i])
  }

  ghost predicate FormatOk(upper: string -> string, d: Draw) {
    FieldsOk(d) && forall i: nat :: i < |d.layout| ==> NewSemantic(upper, d.layout, i)
  }

  // ---------------------------------------------------------------- the extremes decide

  /** lo and hi are the least and the greatest vertex the draw fetches. */
  ghost predicate Extremes(d: Draw, lo: int, hi: int)
    requires Indexed(d) ==> d.ib.Some?
    requires IsNumber(d.start) && IsNumber(d.count)
  {
    FetchesVertex(d, lo) && FetchesVertex(d, hi) && forall v :: FetchesVertex(d, v) ==> lo <= v <= hi
  }

  /** Between two indices whose fetches lie inside, every fetch does. */
  lemma InsideBetween(d: Draw, i: nat, first: int, v: int, last: int)
    requires i < |d.layout| && BoundOk(d, d.layout[i]) && first <= v <= last && Inside(d, i, first) &&
      Inside(d, i, last)
    ensures Inside(d, i, v)
  {
    var stride := d.vbs[d.layout[i].slot].stride.value;
    assert first * stride <= v * stride <= last * stride;
  }

  lemma ExtremesDecide(d: Draw, i: nat, lo: int, hi: int)
    requires HeadOk(d) && i < |d.layout| && ElementOk(d, i) && Extremes(d, lo, hi)
    ensures var e := d.layout[i];
      ElementInside(d, i) <==>
        if e.cls == 0 then Inside(d, i, lo) && Inside(d, i, hi)
        else
          Inside(d, i, d.startInstance.value) &&
          Inside(d, i, d.startInstance.value + (d.instances.value - 1) / e.step)
  {
    var e := d.layout[i];
    if e.cls == 0 {
      if Inside(d, i, lo) && Inside(d, i, hi) {
        forall v | FetchesVertex(d, v)
          ensures Inside(d, i, v)
        {
          InsideBetween(d, i, lo, v, hi);
        }
      }
    } else {
      var first, n := d.startInstance.value, d.instances.value;
      if ElementInside(d, i) {
        assert Inside(d, i, first + 0 / e.step) && Inside(d, i, first + (n - 1) / e.step);
      }
      if Inside(d, i, first) && Inside(d, i, first + (n - 1) / e.step) {
        forall j | 0 <= j < n
          ensures Inside(d, i, first + j / e.step)
        {
          QuotientGrows(j, n - 1, e.step);
          InsideBetween(d, i, first, first + j / e.step, first + (n - 1) / e.step);
        }
      }
    }
  }

  lemma QuotientGrows(a: nat, b: nat, k: int)
    requires a <= b && k > 0
    ensures 0 <= a / k <= b / k
  {
    var p, q := b / k, a / k;
    assert q * k <= a && b < p * k + k;
    if p < q {
      TimesGrows(p + 1, q, k);
    }
  }

  // ---------------------------------------------------------------- the check

  method ParseIndices(w: nat, payload: seq<byte>) returns (indices: seq<nat>)
    requires w > 0
    ensures indices == Indices(w, payload)
  {
    indices := [];
    var rest := payload;
    while |rest| >= w
      invariant Indices(w, payload) == indices + Indices(w, rest)
      decreases |rest|
    {
      indices := indices + [Unpack(rest[..w])];
      rest := rest[w..];
    }
  }

  /** The least and greatest index that is not a cut; None when every index is one. */
  method UncutExtremes(d: Draw, w: nat, indices: seq<nat>) returns (r: Option<(nat, nat)>)
    ensures r.None? <==> forall i :: 0 <= i < |indices| ==> IsCut(d, w, indices[i])
    ensures r.Some? ==>
      r.value.0 in indices && !IsCut(d, w, r.value.0) && r.value.1 in indices && !IsCut(d, w, r.value.1)
    ensures r.Some? ==> forall index :: index in indices && !IsCut(d, w, index) ==> r.value.0 <= index <= r.value.1
  {
    r := None;
    for i := 0 to |indices|
      invariant r.None? <==> forall x :: 0 <= x < i ==> IsCut(d, w, indices[x])
      invariant r.Some? ==>
        r.value.0 in indices[..i] && !IsCut(d, w, r.value.0) && r.value.1 in indices[..i] && !IsCut(d, w, r.value.1)
      invariant r.Some? ==>
        forall index :: index in indices[..i] && !IsCut(d, w, index) ==> r.value.0 <= index <= r.value.1
    {
      var index := indices[i];
      assert indices[..i + 1] == indices[..i] + [index];
      if !IsCut(d, w, index) {
        r := match r
          case None => Some((index, index))
          case Some((lo, hi)) => Some((if index < lo then index else lo, if hi < index then index else hi));
      }
    }
    assert indices[..|indices|] == indices;
  }

  /** The vertex range of a draw whose head is sound, or what is wrong with it. */
  method VertexRange(d: Draw) returns (r: Result<(int, int), GeometryError>)
    ensures r.Ok? <==> HeadOk(d)
    ensures r.Ok? ==> Extremes(d, r.value.0, r.value.1)
  {
    if !IsNumber(d.count) || !IsNumber(d.instances) || !IsNumber(d.start) || !IsNumber(d.startInstance) {
      return Err(InvalidNumber);
    }
    if !(-0x8000_0000 <= d.base < 0x8000_0000) {
      return Err(InvalidBase);
    }
    if d.count.value == 0 || d.instances.value == 0 {
      return Err(EmptyDraw);
    }
    if d.kind !in {'X', 'I', 'N', 'V'} {
      return Err(UnsupportedKind);
    }
    if Indexed(d) {
      r := IndexedRange(d);
    } else {
      var lo, hi := d.start.value, d.start.value + d.count.value - 1;
      assert FetchesVertex(d, lo) && FetchesVertex(d, hi);
      return Ok((lo, hi));
    }
  }

  method IndexedRange(d: Draw) returns (r: Result<(int, int), GeometryError>)
    requires Indexed(d) && IsNumber(d.start) && IsNumber(d.count)
    ensures r.Ok? <==> IndexBlobOk(d) && (exists v :: FetchesVertex(d, v)) && forall v :: FetchesVertex(d, v) ==> v >= 0
    ensures r.Ok? ==> Extremes(d, r.value.0, r.value.1)
  {
    if d.ib.None? || !d.ib.value.complete {
      return Err(IndexBufferUnavailable);
    }
    var ib := d.ib.value;
    if ib.format !in {R32_UINT, R16_UINT} {
      return Err(UnsupportedIndexFormat);
    }
    var w := IndexWidth(ib);
    if ib.offset != Some(ib.bindingOffset + d.start.value * w) {
      return Err(IndexCaptureOrigin);
    }
    if |ib.payload| != d.count.value * w {
      return Err(IndexWindow);
    }
    var indices := ParseIndices(w, ib.payload);
    var extremes := UncutExtremes(d, w, indices);
    if extremes.None? {
      return Err(OnlyStripCuts);
    }
    var lo, hi := extremes.value.0 + d.base, extremes.value.1 + d.base;
    assert FetchesVertex(d, lo) && FetchesVertex(d, hi);
    if lo < 0 {
      return Err(NegativeVertex);
    }
    return Ok((lo, hi));
  }

  /** The end of the last element of each slot so far. */
  ghost predicate CursorOf(layout: seq<Element>, n: nat, cursor: map<int, int>)
    requires n <= |layout|
  {
    forall slot :: EndOf(layout, n, slot) == if slot in cursor then cursor[slot] else 0
  }

  /** The checks of one element that do not depend on where its fetches lie. */
  method CheckFormat(upper: string -> string, d: Draw, i: nat, seen: set<(string, int)>)
      returns (r: Result<(), GeometryError>)
    requires i < |d.layout| && seen == set j | 0 <= j < i :: Key(upper, d.layout[j])
    ensures r.Ok? <==> ElementOk(d, i) && NewSemantic(upper, d.layout, i)
  {
    var e := d.layout[i];
    if e.semantic == "" {
      return Err(InvalidSemantic);
    }
    if !(IsNumber(Some(e.index)) && IsNumber(Some(e.slot)) && IsNumber(Some(e.offset)) && IsNumber(Some(e.cls)) &&
        IsNumber(Some(e.step))) {
      return Err(InvalidNumber);
    }
    if Key(upper, e) in seen {
      return Err(DuplicateSemantic);
    }
    if !(e.slot < MAX_SLOTS && Layout(e.format).Some? && e.cls in {0, 1}) {
      return Err(UnsupportedElement);
    }
    if e.slot !in d.vbs || !d.vbs[e.slot].complete {
      return Err(VertexBufferUnavailable);
    }
    var vb := d.vbs[e.slot];
    if !(IsNumber(vb.stride) && IsNumber(vb.bindingOffset) && IsNumber(vb.offset)) {
      return Err(InvalidNumber);
    }
    if !(vb.stride.value > 0 && vb.inputClass == Some(e.cls) && vb.step == Some(e.step)) {
      return Err(BindingMismatch);
    }
    if e.cls == 1 && e.step == 0 {
      return Err(ZeroInstanceStep);
    }
    if e.cls == 0 && e.step != 0 {
      return Err(VertexStep);
    }
    return Ok(());
  }

  /** Whether the window holds the fetches at both ends of the range the element covers. */
  method CheckWindow(d: Draw, i: nat, lo: int, hi: int, off: int) returns (inside: bool)
    requires HeadOk(d) && Extremes(d, lo, hi) && i < |d.layout| && ElementOk(d, i) && off == OffsetOf(d.layout, i)
    ensures inside <==> ElementInside(d, i)
  {
    hide Inside, ElementInside, OffsetOf, FetchesVertex;
    var e := d.layout[i];
    var vb := d.vbs[e.slot];
    var first, last := lo, hi;
    if e.cls == 1 {
      first, last := d.startInstance.value, d.startInstance.value + (d.instances.value - 1) / e.step;
      QuotientGrows(0, d.instances.value - 1, e.step);
    }
    ExtremesDecide(d, i, lo, hi);
    FirstAndLast(d, i, first, last);
    var low := vb.bindingOffset.value + first * vb.stride.value + off;
    var high := vb.bindingOffset.value + last * vb.stride.value + off + SizeOf(e.format);
    inside := vb.offset.value <= low && high <= vb.offset.value + |vb.payload|;
  }

  /** One element: its checks, the offset it resolves to, and its window. */
  method CheckElement(upper: string -> string, d: Draw, i: nat, lo: int, hi: int, cursor: map<int, int>,
      seen: set<(string, int)>)
      returns (r: Result<int, GeometryError>)
    requires HeadOk(d) && Extremes(d, lo, hi) && i < |d.layout| && CursorOf(d.layout, i, cursor)
    requires seen == set j | 0 <= j < i :: Key(upper, d.layout[j])
    ensures r.Ok? <==> ElementOk(d, i) && NewSemantic(upper, d.layout, i) && ElementInside(d, i)
    ensures r.Ok? ==> r.value == OffsetOf(d.layout, i)
  {
    var _ :- CheckFormat(upper, d, i, seen);
    var e := d.layout[i];
    var off := if e.offset == APPEND then AlignUp(if e.slot in cursor then cursor[e.slot] else 0, AlignOf(e.format))
      else e.offset;
    var inside := CheckWindow(d, i, lo, hi, off);
    if !inside {
      return Err(OutsideWindow);
    }
    return Ok(off);
  }

  /** The low end of the first fetch and the high end of the last bound both fetches. */
  lemma FirstAndLast(d: Draw, i: nat, first: int, last: int)
    requires i < |d.layout| && BoundOk(d, d.layout[i]) && first <= last
    ensures var vb, off := d.vbs[d.layout[i].slot], OffsetOf(d.layout, i);
      Inside(d, i, first) && Inside(d, i, last) <==>
        vb.offset.value <= vb.bindingOffset.value + first * vb.stride.value + off &&
        vb.bindingOffset.value + last * vb.stride.value + off + SizeOf(d.layout[i].format) <=
          vb.offset.value + |vb.payload|
  {
    var stride := d.vbs[d.layout[i].slot].stride.value;
    assert first * stride <= last * stride;
  }

  lemma CursorStart(layout: seq<Element>)
    ensures CursorOf(layout, 0, map[])
  {
  }

  lemma CursorStep(layout: seq<Element>, i: nat, cursor: map<int, int>)
    requires i < |layout| && CursorOf(layout, i, cursor)
    ensures CursorOf(layout, i + 1, cursor[layout[i].slot := OffsetOf(layout, i) + SizeOf(layout[i].format)])
  {
  }

  /** Accepts a draw exactly when its formats are sound and every one of its fetches lies in a retained window. */
  method VerifyGeometry(upper: string -> string, d: Draw) returns (r: Result<(), GeometryError>)
    ensures r.Ok? <==> FormatOk(upper, d) && EveryFetchInside(d)
  {
    hide ElementInside, ElementOk, NewSemantic, OffsetOf, EndOf, HeadOk, Extremes, Key, CursorOf;
    CursorStart(d.layout);
    var range :- VertexRange(d);
    var (lo, hi) := range;
    if !(0 < |d.layout| <= MAX_ELEMENTS) {
      return Err(LayoutUnavailable);
    }
    var cursor: map<int, int> := map[];
    var seen: set<(string, int)> := {};
    for i := 0 to |d.layout|
      invariant CursorOf(d.layout, i, cursor)
      invariant seen == set j | 0 <= j < i :: Key(upper, d.layout[j])
      invariant forall j: nat :: j < i ==> ElementOk(d, j) && NewSemantic(upper, d.layout, j) && ElementInside(d, j)
    {
      var off :- CheckElement(upper, d, i, lo, hi, cursor, seen);
      CursorStep(d.layout, i, cursor);
      cursor := cursor[d.layout[i].slot := off + SizeOf(d.layout[i].format)];
      seen := seen + {Key(upper, d.layout[i])};
    }
    return Ok(());
  }
}
