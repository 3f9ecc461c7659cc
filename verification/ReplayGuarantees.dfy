/** What an export of tools/identity_fusion_capture.py guarantees, whatever was captured. */
module ReplayGuarantees {
  import opened Prelude
  import opened Bytes
  import opened Parsing
  import opened Occurrences
  import opened ReplayGeometry
  import opened ReplayFixture
  import opened ReplayExport
  import opened ReplayExtract

  // ---------------------------------------------------------------- every candidate is accounted for

  lemma {:induction false} TallyCounts(verdicts: seq<Result<Output, ExportError>>, draws: seq<Output>,
      skips: multiset<ExportError>)
    requires Tallied(verdicts, draws, skips)
    ensures |draws| + |skips| == |verdicts|
  {
    NoneIsLost(verdicts);
  }

  /** Each candidate of a frame is drawn or counted as skipped. */
  lemma {:induction false} EveryCandidateIsAccountedFor(c: Capture, e: Export, kept: Kept, f: nat)
    requires Explained(c, e, kept) && f < |e.selected|
    ensures f < |e.fixture.frames| && f < |e.skippedByFrame|
    ensures |e.fixture.frames[f].draws| + |e.skippedByFrame[f]| == |Candidates(c, e.selected[f])|
  {
    hide FirstVerdict, EntryFor, LaterVerdict, KeptFrom, MadeOf, Candidates, Tallied;
    var frame, skips := e.fixture.frames[f], e.skippedByFrame[f];
    assert FrameTold(c, kept, e.selected, f, frame, skips);
    if f == 0 {
      var verdicts, entries :| FirstJudged(c, kept, kept.first, verdicts, entries) &&
        Tallied(verdicts, frame.draws, skips);
      TallyCounts(verdicts, frame.draws, skips);
    } else {
      var later := Candidates(c, e.selected[f]);
      var verdicts :| LaterJudged(c, kept, later, |later|, verdicts) && Tallied(verdicts, frame.draws, skips);
      TallyCounts(verdicts, frame.draws, skips);
    }
  }

  // ---------------------------------------------------------------- what a geometry is

  /** The fields of a normal form. */
  lemma {:induction false} NormalSizes(d: Draw)
    requires Normalize(d).Ok?
    ensures var g := Normalize(d).value;
      0 < g.stride <= MAX_STRIDE && 0 < |g.vb| <= MAX_VERTEX && |g.ib| == g.indexCount * 4 && LayoutOk(g.layout)
  {
    hide Packed, IndexWindow, DrawVertices;
    var vs, low, high := NormalizedForm(d);
    NormalFields(d);
    NormalSpan(d, Normalize(d).value, 4, vs, low, high);
  }

  lemma {:induction false} NormalSpan(d: Draw, g: Geometry, w: nat, vs: seq<int>, low: int, high: int)
    requires |d.streams| >= 3 && Packed(d, g, w, vs, low, high) && g.stride > 0
    ensures |g.vb| > 0 && |g.ib| == |vs| * w
  {
    SpannedSize(d, low, high);
    var first: nat :| first < |vs| && vs[first] == low;
    TimesGrows(1, high + 1 - low, g.stride);
  }

  /** Normal forms of one identity are drawn alike. */
  lemma {:induction false} SameIdentity(a: Draw, b: Draw)
    requires Normalize(a).Ok? && Normalize(b).Ok? && IdentityOf(Normalize(a).value) == IdentityOf(Normalize(b).value)
    ensures var g, h := Normalize(a).value, Normalize(b).value;
      g.shader == h.shader && g.indexCount == h.indexCount && g.stride == h.stride && g.layout == h.layout &&
      g.vb == h.vb && g.ib == h.ib
  {
    hide Normalize;
    NormalFields(a);
    NormalFields(b);
  }

  /** A geometry of a draw's identity is the draw's. */
  lemma {:induction false} KeptIsDrawn(c: Capture, kept: Kept, g: nat, i: nat)
    requires InCapture(c, kept.first) && GeometriesFrom(c, kept.first, kept.dims, kept.geometries) &&
      g < |kept.geometries| &&
      i < |c.draws|
    requires Checked(c, i).Ok? && IdentityOf(kept.geometries[g]) == IdentityAt(c, i)
    ensures Normalize(c.draws[i]).Ok?
    ensures var h := Normalize(c.draws[i]).value;
      kept.geometries[g].shader == h.shader && kept.geometries[g].indexCount == h.indexCount &&
      kept.geometries[g].stride == h.stride &&
      kept.geometries[g].layout == h.layout && kept.geometries[g].vb == h.vb && kept.geometries[g].ib == h.ib
  {
    hide Checked, Normalize, IdentityOf;
    assert GeometryFrom(c, kept.first, kept.dims, kept.geometries[g]);
    var p: nat :| p < |kept.first| && Checked(c, kept.first[p]).Ok? &&
      kept.geometries[g] == Checked(c, kept.first[p]).value.0;
    CheckedNormalizes(c, kept.first[p]);
    CheckedNormalizes(c, i);
    SameIdentity(c.draws[kept.first[p]], c.draws[i]);
  }

  // ---------------------------------------------------------------- borrowing

  /** The mesh holds the normal form of draw i. */
  ghost predicate MeshOfDraw(c: Capture, m: Mesh, i: nat)
    requires i < |c.draws|
  {
    Normalize(c.draws[i]).Ok? &&
    var g := Normalize(c.draws[i]).value;
      m.count == g.indexCount && m.stride == g.stride && m.layout == g.layout && m.vb == g.vb && m.ib == g.ib
  }

  lemma {:induction false} MeshIsDrawn(c: Capture, e: Export, kept: Kept, g: nat, i: nat)
    requires Explained(c, e, kept) && g < |kept.geometries| && i < |c.draws| && Checked(c, i).Ok? &&
        IdentityOf(kept.geometries[g]) == IdentityAt(c, i)
    ensures g < |e.fixture.meshes| && MeshOfDraw(c, e.fixture.meshes[g], i)
  {
    hide Checked, Normalize, IdentityOf, FramesTold, Selected;
    KeptIsDrawn(c, kept, g, i);
  }

  /** Output o of a later frame is that of candidate p, with the geometry of draw j of the first frame. */
  ghost predicate Borrows(c: Capture, e: Export, kept: Kept, f: nat, o: Output, j: nat, p: nat)
    requires InCapture(c, kept.first) && f < |e.selected|
  {
    var later := Candidates(c, e.selected[f]);
    p < |later| && o.original == later[p] && Lends(c, kept, later, j, p) &&
    !Ambiguous(c, kept, KeyOf(c.draws[later[p]])) &&
    o.geometry < |e.fixture.meshes| && MeshOfDraw(c, e.fixture.meshes[o.geometry], kept.first[j])
  }

  lemma {:induction false} OkIsLent(c: Capture, kept: Kept, later: seq<nat>, p: nat, o: Output) returns (j: nat)
    requires InCapture(c, kept.first) && InCapture(c, later) && p < |later| && LaterVerdict(c, kept, later, p, Ok(o))
    ensures Lends(c, kept, later, j, p) && !Ambiguous(c, kept, KeyOf(c.draws[later[p]])) && o.original == later[p]
    ensures o.geometry < |kept.geometries| && IdentityOf(kept.geometries[o.geometry]) == IdentityAt(c, kept.first[j])
  {
    hide Checked, Corresponds, Ambiguous, PayloadOf;
    j :| Lends(c, kept, later, j, p);
  }

  /**
   Every draw of a later frame borrows the geometry of the first-frame draw with its stable key and its occurrence of
   it, and no two usable first-frame draws with that key hold different geometries.
   */
  lemma {:induction false} LaterDrawsBorrow(c: Capture, e: Export, kept: Kept, f: nat, o: Output)
      returns (j: nat, p: nat)
    requires Explained(c, e, kept) && 0 < f < |e.selected| && o in e.fixture.frames[f].draws
    ensures Borrows(c, e, kept, f, o, j, p)
    ensures forall a: nat :: UsableUnder(c, kept, KeyOf(c.draws[o.original]), a) ==>
      IdentityAt(c, kept.first[a]) == IdentityAt(c, kept.first[j])
  {
    hide LaterVerdict, KeptFrom, MadeOf, Candidates, Checked, IdentityOf, Normalize;
    var frame, skips, later := e.fixture.frames[f], e.skippedByFrame[f], Candidates(c, e.selected[f]);
    assert FrameTold(c, kept, e.selected, f, frame, skips);
    var verdicts :| LaterJudged(c, kept, later, |later|, verdicts) && Tallied(verdicts, frame.draws, skips);
    p := OkFrom(verdicts, o);
    j := OkIsLent(c, kept, later, p, o);
    MeshIsDrawn(c, e, kept, o.geometry, kept.first[j]);
    assert UsableUnder(c, kept, KeyOf(c.draws[later[p]]), j);
  }

  /**
   A later draw fetches, for each of its indices, the bytes its first-frame counterpart fetched from the captured
   buffers.
   */
  lemma {:induction false} BorrowedFetches(c: Capture, e: Export, kept: Kept, f: nat, o: Output, j: nat, p: nat, n: nat)
    requires InCapture(c, kept.first) && f < |e.selected| && Borrows(c, e, kept, f, o, j, p) &&
        n < e.fixture.meshes[o.geometry].count
    ensures var m, d := e.fixture.meshes[o.geometry], c.draws[kept.first[j]];
      |d.streams| >= 3 && SourceVertex(d, n).Some? && n * 4 + 4 <= |m.ib| &&
      IndexAt(m.ib, 4, n) * m.stride + m.stride <= |m.vb| &&
      SourceBytes(d, SourceVertex(d, n).value) == Some(VertexAt(m.vb, m.stride, IndexAt(m.ib, 4, n)))
  {
    hide Ambiguous, Normalize, Candidates, SourceVertex, SourceBytes, VertexAt, IndexAt;
    NormalFields(c.draws[kept.first[j]]);
    NormalizationPreservesFetches(c.draws[kept.first[j]], n);
  }

  // ---------------------------------------------------------------- what an output carries

  /**
   The output holds what draw i bound: its second and third constants, its pool and bone buffers, and of its instance
   buffer the eight bytes of its start instance, counted from an offset.
   */
  ghost predicate Carries(c: Capture, resources: seq<Resource>, i: nat, offset: nat, o: Output)
    requires i < |c.draws|
  {
    var d := c.draws[i];
    |d.mesh| == 3 && |d.buffers| >= 3 &&
    d.mesh[0] < |c.buffers| && d.mesh[1] < |c.buffers| && d.mesh[2] < |c.buffers| &&
    o.cb1 == d.buffers[1].data && o.cb2 == d.buffers[2].data &&
    o.pool < |resources| && resources[o.pool] == Resource(336, c.buffers[d.mesh[0]].data) &&
    o.bones < |resources| && resources[o.bones] == Resource(48, c.buffers[d.mesh[1]].data) &&
    PairAt(c.buffers[d.mesh[2]].data, offset + 8 * d.startInstance, o.instance)
  }

  ghost predicate PairAt(data: seq<byte>, start: nat, pair: seq<byte>) {
    |pair| == 8 && start + 8 <= |data| && forall n: nat :: n < 8 ==> pair[n] == data[start + n]
  }

  lemma {:induction false} EmittedCarries(c: Capture, resources: seq<Resource>, i: nat, geometry: nat,
      binding: (nat, nat), p: Payload, o: Output)
    requires i < |c.draws| && PayloadOf(c, i, binding) == Ok(p) && Emitted(c, resources, i, geometry, p, o)
    ensures o.original == i && binding.1 == 8 && Carries(c, resources, i, binding.0, o)
  {
    hide PayloadOf;
    PayloadIff(c, i, binding);
  }

  lemma {:induction false} FirstOkCarries(c: Capture, kept: Kept, i: nat, o: Output)
    requires i < |c.draws| && FirstVerdict(c, kept, i, Ok(o))
    ensures c.draws[i].streams != [] && c.draws[i].streams[0].stride == 8
    ensures o.original == i && Carries(c, kept.resources, i, c.draws[i].streams[0].offset, o)
    ensures Checked(c, i).Ok? && o.geometry < |kept.geometries|
    ensures IdentityOf(kept.geometries[o.geometry]) == IdentityAt(c, i)
  {
    hide Checked, PayloadOf, Carries, IdentityOf;
    CheckedNormalizes(c, i);
    EmittedCarries(c, kept.resources, i, o.geometry, BindingOf(c.draws[i]), Checked(c, i).value.1, o);
  }

  /** A draw of the first frame carries its own payload, found through its own instance stream, and its own geometry. */
  lemma {:induction false} FirstDrawsCarry(c: Capture, e: Export, kept: Kept, o: Output)
    requires Explained(c, e, kept) && o in e.fixture.frames[0].draws
    ensures o.original in kept.first && c.draws[o.original].streams != []
    ensures Carries(c, e.fixture.resources, o.original, c.draws[o.original].streams[0].offset, o)
    ensures o.geometry < |e.fixture.meshes| && MeshOfDraw(c, e.fixture.meshes[o.geometry], o.original)
  {
    hide FirstVerdict, EntryFor, Candidates, Checked, IdentityOf, Normalize, Carries, MeshOfDraw, KeptFrom;
    var frame, skips := e.fixture.frames[0], e.skippedByFrame[0];
    assert FrameTold(c, kept, e.selected, 0, frame, skips);
    var verdicts, entries :| FirstJudged(c, kept, kept.first, verdicts, entries) &&
      Tallied(verdicts, frame.draws, skips);
    var p := OkFrom(verdicts, o);
    FirstOkCarries(c, kept, kept.first[p], o);
    MeshIsDrawn(c, e, kept, o.geometry, kept.first[p]);
  }

  lemma {:induction false} LentOkCarries(c: Capture, kept: Kept, later: seq<nat>, p: nat, j: nat, o: Output)
    requires InCapture(c, kept.first) && InCapture(c, later) && p < |later|
    requires LaterVerdict(c, kept, later, p, Ok(o)) && Lends(c, kept, later, j, p)
    ensures c.draws[kept.first[j]].streams != [] && c.draws[kept.first[j]].streams[0].stride == 8
    ensures o.original == later[p] && Carries(c, kept.resources, later[p], c.draws[kept.first[j]].streams[0].offset, o)
  {
    hide Checked, Corresponds, Ambiguous, PayloadOf, Carries, IdentityOf, Emitted, Usable;
    LenderIsChecked(c, kept, later, j, p);
    var binding := BindingOf(c.draws[kept.first[j]]);
    assert BorrowVerdict(c, kept, kept.first[j], later[p], Ok(o));
    var payload := PayloadOf(c, later[p], binding);
    assert Emitted(c, kept.resources, later[p], o.geometry, payload.value, o);
    EmittedCarries(c, kept.resources, later[p], o.geometry, binding, payload.value, o);
  }

  lemma LenderIsChecked(c: Capture, kept: Kept, later: seq<nat>, j: nat, p: nat)
    requires InCapture(c, kept.first) && InCapture(c, later) && p < |later| && Lends(c, kept, later, j, p)
    ensures j < |kept.first| && Checked(c, kept.first[j]).Ok?
  {
    hide Checked;
  }

  /** A draw of a later frame carries its own payload, found through the instance stream of the draw it borrows from. */
  lemma {:induction false} LaterDrawsCarry(c: Capture, e: Export, kept: Kept, f: nat, o: Output)
      returns (j: nat, p: nat)
    requires Explained(c, e, kept) && 0 < f < |e.selected| && o in e.fixture.frames[f].draws
    ensures Borrows(c, e, kept, f, o, j, p) && c.draws[kept.first[j]].streams != []
    ensures Carries(c, e.fixture.resources, o.original, c.draws[kept.first[j]].streams[0].offset, o)
  {
    hide LaterVerdict, KeptFrom, Candidates, Checked, IdentityOf, Normalize, Carries, MeshOfDraw, Ambiguous,
      Corresponds;
    var frame, skips, later := e.fixture.frames[f], e.skippedByFrame[f], Candidates(c, e.selected[f]);
    assert FrameTold(c, kept, e.selected, f, frame, skips);
    var verdicts :| LaterJudged(c, kept, later, |later|, verdicts) && Tallied(verdicts, frame.draws, skips);
    p := OkFrom(verdicts, o);
    j := OkIsLent(c, kept, later, p, o);
    LenderIsChecked(c, kept, later, j, p);
    MeshIsDrawn(c, e, kept, o.geometry, kept.first[j]);
    LentOkCarries(c, kept, later, p, j, o);
  }

  // ---------------------------------------------------------------- the draws of a frame

  /** An accepted draw's place among the candidates. */
  lemma {:induction false} AcceptedAt(c: Capture, kept: Kept, items: seq<nat>, first: bool, p: nat, o: Output)
    requires InCapture(c, kept.first) && InCapture(c, items) && p < |items|
    requires if first then FirstVerdict(c, kept, items[p], Ok(o)) else LaterVerdict(c, kept, items, p, Ok(o))
    ensures o.original == items[p] && kept.dims == Some(SizeOf(c.draws[items[p]]))
  {
    hide Checked, PayloadOf, IdentityOf, Ambiguous, Corresponds;
    if !first {
      var j := OkIsLent(c, kept, items, p, o);
      LenderIsChecked(c, kept, items, j, p);
      assert BorrowVerdict(c, kept, kept.first[j], items[p], Ok(o));
    }
  }

  /** The verdicts a frame's draws are the accepted ones of. */
  lemma {:induction false} VerdictsOf(c: Capture, e: Export, kept: Kept, f: nat)
      returns (items: seq<nat>, verdicts: seq<Result<Output, ExportError>>)
    requires Explained(c, e, kept) && f < |e.selected|
    ensures InCapture(c, kept.first) && |e.fixture.frames| == |e.selected|
    ensures items == Candidates(c, e.selected[f]) && |verdicts| == |items| && Oks(verdicts) == e.fixture.frames[f].draws
    ensures e.fixture.frames[f].original == e.selected[f]
    ensures forall p: nat :: p < |items| ==>
      if f == 0 then FirstVerdict(c, kept, items[p], verdicts[p]) else LaterVerdict(c, kept, items, p, verdicts[p])
  {
    hide FirstVerdict, LaterVerdict, EntryFor, Candidates, KeptFrom, MadeOf;
    items := Candidates(c, e.selected[f]);
    var frame, skips := e.fixture.frames[f], e.skippedByFrame[f];
    assert FrameTold(c, kept, e.selected, f, frame, skips);
    if f == 0 {
      var found, entries :| FirstJudged(c, kept, kept.first, found, entries) && Tallied(found, frame.draws, skips);
      verdicts := found;
    } else {
      var found :| LaterJudged(c, kept, items, |items|, found) && Tallied(found, frame.draws, skips);
      verdicts := found;
    }
  }

  /** The draws of a frame are draws of the captured frame that can be replayed, all of the fixture's size. */
  lemma {:induction false} DrawsAreReplayable(c: Capture, e: Export, kept: Kept, f: nat, o: Output)
    requires Explained(c, e, kept) && f < |e.selected| && o in e.fixture.frames[f].draws
    ensures o.original < |c.draws|
    ensures var d := c.draws[o.original];
      Replayable(d) && d.frame == e.selected[f] == e.fixture.frames[f].original && d.width == e.fixture.width &&
      d.height == e.fixture.height
  {
    hide FirstVerdict, LaterVerdict, Candidates, Explained, Replayable;
    var items, verdicts := VerdictsOf(c, e, kept, f);
    var p := OkFrom(verdicts, o);
    SizeIsFixed(c, e, kept);
    AcceptedAt(c, kept, items, f == 0, p, o);
    CandidatesIff(c, e.selected[f], o.original);
  }

  lemma SizeIsFixed(c: Capture, e: Export, kept: Kept)
    requires Explained(c, e, kept)
    ensures kept.dims == Some((e.fixture.width, e.fixture.height)) && InCapture(c, kept.first)
  {
    hide KeptFrom, FramesTold, Candidates, Selected;
  }

  /** They come in the order they were captured in, and none comes twice. */
  lemma {:induction false} DrawsAreInOrder(c: Capture, e: Export, kept: Kept, f: nat, a: nat, b: nat)
    requires Explained(c, e, kept) && f < |e.selected| && a < b < |e.fixture.frames[f].draws|
    ensures e.fixture.frames[f].draws[a].original < e.fixture.frames[f].draws[b].original
  {
    hide FirstVerdict, LaterVerdict, Candidates, Explained;
    var items, verdicts := VerdictsOf(c, e, kept, f);
    SizeIsFixed(c, e, kept);
    var p, q := OksInOrder(verdicts, a, b);
    AcceptedAt(c, kept, items, f == 0, p, e.fixture.frames[f].draws[a]);
    AcceptedAt(c, kept, items, f == 0, q, e.fixture.frames[f].draws[b]);
    CandidatesIff(c, e.selected[f], items[p]);
  }

  lemma {:induction false} MeshShader(c: Capture, e: Export, kept: Kept, g: nat, i: nat)
    requires Explained(c, e, kept) && g < |kept.geometries| && i < |c.draws| && Eligible(c.draws[i])
    requires Checked(c, i).Ok? && IdentityOf(kept.geometries[g]) == IdentityAt(c, i)
    ensures g < |e.fixture.meshes| && e.fixture.meshes[g].count == c.draws[i].count
    ensures e.fixture.meshes[g].shader < |e.fixture.shaders|
    ensures e.fixture.shaders[e.fixture.meshes[g].shader].hash == c.draws[i].vs
  {
    hide Checked, Normalize, IdentityOf, FramesTold, Selected, Eligible;
    KeptIsDrawn(c, kept, g, i);
    NormalFields(c.draws[i]);
    FamilyInUse(c.draws[i], kept.geometries, g);
  }

  /** Every draw is replayed with the shader it was captured with, and with as many indices. */
  lemma {:induction false} DrawnWithItsShader(c: Capture, e: Export, kept: Kept, f: nat, o: Output)
    requires Explained(c, e, kept) && f < |e.selected| && o in e.fixture.frames[f].draws
    ensures o.original < |c.draws| && o.geometry < |e.fixture.meshes|
    ensures var m, d := e.fixture.meshes[o.geometry], c.draws[o.original];
      m.count == d.count && m.shader < |e.fixture.shaders| && e.fixture.shaders[m.shader].hash == d.vs
  {
    hide FirstVerdict, LaterVerdict, Candidates, Explained, Checked, IdentityOf;
    var items, verdicts := VerdictsOf(c, e, kept, f);
    var p := OkFrom(verdicts, o);
    SizeIsFixed(c, e, kept);
    AcceptedAt(c, kept, items, f == 0, p, o);
    if f == 0 {
      FirstOkCarries(c, kept, items[p], o);
      CandidatesAre(c, e.selected[f], p);
      MeshShader(c, e, kept, o.geometry, items[p]);
    } else {
      var j := OkIsLent(c, kept, items, p, o);
      LenderIsChecked(c, kept, items, j, p);
      FirstIsCandidates(c, e, kept);
      CandidatesAre(c, e.selected[0], j);
      MeshShader(c, e, kept, o.geometry, kept.first[j]);
    }
  }

  lemma FirstIsCandidates(c: Capture, e: Export, kept: Kept)
    requires Explained(c, e, kept)
    ensures e.selected != [] && kept.first == Candidates(c, e.selected[0])
  {
    hide KeptFrom, FramesTold, Candidates, MadeOf;
  }

  // ---------------------------------------------------------------- the fixture is sound

  /** A 32-bit field. */
  predicate Wide(v: nat) { v <= MAX_COUNT }

  predicate ElementRead(e: Element) {
    Wide(e.index) && Wide(e.format) && Wide(e.slot) && Wide(e.offset) && Wide(e.classification) && Wide(e.step)
  }

  /**
   A capture as the capture reader gives it: the numbers it passes on were 32-bit fields, as was the number of draws.
   */
  predicate CaptureRead(c: Capture) {
    Wide(|c.draws|) && forall i: nat :: i < |c.draws| ==>
      Wide(c.draws[i].width) && Wide(c.draws[i].height) && Wide(c.draws[i].frame) &&
      forall e :: e in c.draws[i].layout ==> ElementRead(e)
  }

  lemma WideSpan(v: nat)
    requires Wide(v)
    ensures v < Span(4)
  {
    SpanOfFour();
  }

  lemma FamilyFits(x: nat)
    requires x in FAMILIES
    ensures x < Span(8)
  {
    SpanOfFour();
  }

  lemma {:induction false} ElementsAreWritable(layout: seq<Element>)
    requires LayoutOk(layout) && forall e :: e in layout ==> ElementRead(e)
    ensures forall e :: e in layout ==> ElementWritable(e) && e.semantic != []
  {
    forall e | e in layout
      ensures ElementWritable(e) && e.semantic != []
    {
      var i: nat :| i < |layout| && layout[i] == e;
      assert SemanticOk(layout[i].semantic);
      WideSpan(e.index);
      WideSpan(e.format);
      WideSpan(e.slot);
      WideSpan(e.offset);
      WideSpan(e.classification);
      WideSpan(e.step);
    }
  }

  lemma {:induction false} MeshIsSound(used: seq<nat>, g: Geometry, d: Draw)
    requires Normalize(d) == Ok(g) && Eligible(d) && d.vs in used && |used| <= MAX_SHADERS &&
      forall e :: e in d.layout ==> ElementRead(e)
    ensures MeshSound(MeshFor(used, g), |used|)
  {
    hide Normalize, ElementWritable, LayoutOk, Span;
    NormalFields(d);
    NormalSizes(d);
    ElementsAreWritable(g.layout);
    assert |g.layout| <= MAX_ELEMENTS by {
      LayoutLength(g.layout);
    }
    WideSpan(IndexOf(used, g.shader)); WideSpan(g.indexCount); WideSpan(g.stride); WideSpan(|g.layout|);
  }

  lemma LayoutLength(layout: seq<Element>)
    requires LayoutOk(layout)
    ensures |layout| <= MAX_ELEMENTS
  {
  }

  lemma {:induction false} MeshesAreSound(c: Capture, e: Export, kept: Kept)
    requires CaptureRead(c) && Explained(c, e, kept)
    ensures forall m :: m in e.fixture.meshes ==> MeshSound(m, |e.fixture.shaders|)
  {
    hide Normalize, Checked, Eligible, Candidates, FramesTold, Occupied, MeshSound, FAMILIES;
    var used := Used(FAMILIES, kept.geometries);
    forall m | m in e.fixture.meshes
      ensures MeshSound(m, |used|)
    {
      var g: nat :| g < |kept.geometries| && m == MeshFor(used, kept.geometries[g]);
      assert GeometryFrom(c, kept.first, kept.dims, kept.geometries[g]);
      var p: nat :| p < |kept.first| && Checked(c, kept.first[p]).Ok? &&
        kept.geometries[g] == Checked(c, kept.first[p]).value.0;
      var d := c.draws[kept.first[p]];
      CheckedNormalizes(c, kept.first[p]);
      CandidatesAre(c, e.selected[0], p);
      NormalFields(d);
      FamilyInUse(d, kept.geometries, g);
      FewFamilies(kept.geometries);
      MeshIsSound(used, kept.geometries[g], d);
    }
  }

  lemma FewFamilies(geometries: seq<Geometry>)
    ensures |Used(FAMILIES, geometries)| <= MAX_SHADERS
  {
  }

  lemma {:induction false} OutputIsSound(c: Capture, kept: Kept, i: nat, binding: (nat, nat), p: Payload, o: Output,
      geometries: nat)
    requires i < |c.draws| && Wide(|c.draws|) && PayloadOf(c, i, binding) == Ok(p) &&
        Emitted(c, kept.resources, i, o.geometry, p, o)
    requires o.geometry < geometries <= MAX_GEOMETRIES && |kept.resources| <= MAX_RESOURCES
    ensures OutputSound(o, geometries, |kept.resources|)
  {
    hide PayloadOf;
    PayloadBuffers(c, i, binding);
    WideSpan(o.geometry); WideSpan(o.pool); WideSpan(o.bones); WideSpan(o.original);
  }

  lemma {:induction false} FirstOutputIsSound(c: Capture, kept: Kept, i: nat, o: Output)
    requires i < |c.draws| && Wide(|c.draws|) && FirstVerdict(c, kept, i, Ok(o)) &&
        |kept.geometries| <= MAX_GEOMETRIES && |kept.resources| <= MAX_RESOURCES
    ensures OutputSound(o, |kept.geometries|, |kept.resources|)
  {
    hide Checked, PayloadOf, OutputSound;
    CheckedNormalizes(c, i);
    OutputIsSound(c, kept, i, BindingOf(c.draws[i]), Checked(c, i).value.1, o, |kept.geometries|);
  }

  lemma {:induction false} LaterOutputIsSound(c: Capture, kept: Kept, later: seq<nat>, p: nat, o: Output)
    requires InCapture(c, kept.first) && InCapture(c, later) && p < |later| && Wide(|c.draws|) &&
        LaterVerdict(c, kept, later, p, Ok(o))
    requires |kept.geometries| <= MAX_GEOMETRIES && |kept.resources| <= MAX_RESOURCES
    ensures OutputSound(o, |kept.geometries|, |kept.resources|)
  {
    hide Checked, PayloadOf, OutputSound, Ambiguous, Nth, Keys;
    var j: nat :| Lends(c, kept, later, j, p);
    var binding := BindingOf(c.draws[kept.first[j]]);
    OutputIsSound(c, kept, later[p], binding, PayloadOf(c, later[p], binding).value, o, |kept.geometries|);
  }

  lemma {:induction false} OutputsAreSound(c: Capture, e: Export, kept: Kept, f: nat)
    requires CaptureRead(c) && Explained(c, e, kept) && f < |e.selected| && |kept.geometries| <= MAX_GEOMETRIES
    ensures forall o :: o in e.fixture.frames[f].draws ==> OutputSound(o, |kept.geometries|, |kept.resources|)
  {
    hide FirstVerdict, LaterVerdict, EntryFor, Candidates, OutputSound, CaptureRead;
    assert Wide(|c.draws|) by {
      DrawCount(c);
    }
    var frame, skips := e.fixture.frames[f], e.skippedByFrame[f];
    assert FrameTold(c, kept, e.selected, f, frame, skips);
    forall o | o in frame.draws
      ensures OutputSound(o, |kept.geometries|, |kept.resources|)
    {
      if f == 0 {
        var verdicts, entries :| FirstJudged(c, kept, kept.first, verdicts, entries) &&
          Tallied(verdicts, frame.draws, skips);
        var p := OkFrom(verdicts, o);
        FirstOutputIsSound(c, kept, kept.first[p], o);
      } else {
        var later := Candidates(c, e.selected[f]);
        var verdicts :| LaterJudged(c, kept, later, |later|, verdicts) && Tallied(verdicts, frame.draws, skips);
        var p := OkFrom(verdicts, o);
        LaterOutputIsSound(c, kept, later, p, o);
      }
    }
  }

  lemma DrawCount(c: Capture)
    requires CaptureRead(c)
    ensures Wide(|c.draws|)
  {
  }

  lemma {:induction false} FramesAreSound(c: Capture, e: Export, kept: Kept)
    requires CaptureRead(c) && Explained(c, e, kept)
    ensures forall x :: x in e.fixture.frames ==> FrameSound(x, |e.fixture.meshes|, |e.fixture.resources|)
  {
    hide OutputSound, FramesTold, Candidates, Eligible, Span;
    assert |kept.geometries| <= MAX_GEOMETRIES;
    forall x | x in e.fixture.frames
      ensures FrameSound(x, |kept.geometries|, |kept.resources|)
    {
      var f: nat :| f < |e.fixture.frames| && e.fixture.frames[f] == x;
      OutputsAreSound(c, e, kept, f);
      EveryCandidateIsAccountedFor(c, e, kept, f);
      FrameHeader(c, e, kept, f);
      assert forall o :: o in x.draws ==> OutputWritable(o) by {
        SoundOutputs(x.draws, |kept.geometries|, |kept.resources|);
      }
    }
  }

  lemma SoundOutputs(draws: seq<Output>, geometries: nat, resources: nat)
    requires forall o :: o in draws ==> OutputSound(o, geometries, resources)
    ensures forall o :: o in draws ==> OutputWritable(o)
  {
    hide OutputWritable;
  }

  lemma {:induction false} FrameHeader(c: Capture, e: Export, kept: Kept, f: nat)
    requires CaptureRead(c) && Explained(c, e, kept) && f < |e.selected| && |e.fixture.frames[f].draws| <= MAX_DRAWS
    ensures Fits(U32x2, FrameItemOf(e.fixture.frames[f]).0)
  {
    hide Eligible, Candidates, FirstTold, LaterTold, KeptFrom, MadeOf, Span;
    var frame := e.fixture.frames[f];
    assert FrameTold(c, kept, e.selected, f, frame, e.skippedByFrame[f]);
    assert Occupied(c, frame.original, |c.draws|);
    WideSpan(frame.original);
    WideSpan(|frame.draws|);
  }

  lemma {:induction false} DimensionsAreSound(c: Capture, items: seq<nat>, dims: Option<(nat, nat)>)
    requires CaptureRead(c) && InCapture(c, items) && FirstSized(c, items, dims) && dims.Some?
    ensures 0 < dims.value.0 && Wide(dims.value.0) && 0 < dims.value.1 && Wide(dims.value.1)
  {
    hide Checked;
    var p: nat :| p < |items| && Checked(c, items[p]).Ok? && SizeOf(c.draws[items[p]]) == dims.value;
    CheckedNormalizes(c, items[p]);
  }

  lemma {:induction false} FrameSizes(c: Capture, e: Export, kept: Kept)
    requires Explained(c, e, kept)
    ensures forall x :: x in e.fixture.frames ==> |x.draws| <= MAX_DRAWS
  {
    hide Checked, Candidates, FramesTold, KeptFrom, MadeOf, Occupied;
    forall x | x in e.fixture.frames
      ensures |x.draws| <= MAX_DRAWS
    {
      var n: nat :| n < |e.fixture.frames| && e.fixture.frames[n] == x;
      EveryCandidateIsAccountedFor(c, e, kept, n);
    }
  }

  lemma {:induction false} HeaderFits(f: Fixture)
    requires Wide(f.width) && Wide(f.height) && CountsInBounds(f) && |f.resources| <= MAX_RESOURCES
    ensures Fits(U32x7, HeaderOf(f))
  {
    hide Span;
    WideSpan(VERSION); WideSpan(f.width); WideSpan(f.height);
    WideSpan(|f.frames|); WideSpan(|f.shaders|); WideSpan(|f.meshes|); WideSpan(|f.resources|);
  }

  lemma {:induction false} HeaderIsSound(c: Capture, e: Export, kept: Kept)
    requires CaptureRead(c) && Explained(c, e, kept)
    ensures CountsInBounds(e.fixture) && Fits(U32x7, HeaderOf(e.fixture)) && e.fixture.width != 0 &&
      e.fixture.height != 0
  {
    hide CaptureRead, Checked, Candidates, FramesTold, GeometriesFrom, FirstSized, Used, FAMILIES, Fits, Occupied;
    FewFamilies(kept.geometries);
    FrameSizes(c, e, kept);
    DimensionsAreSound(c, kept.first, kept.dims);
    HeaderFits(e.fixture);
  }

  /** Whatever the capture, the fixture is sound as soon as its shaders fit the format. */
  lemma {:induction false} FixtureIsSound(c: Capture, e: Export, kept: Kept)
    requires CaptureRead(c) && Explained(c, e, kept) && forall s :: s in e.fixture.shaders ==> |s.data| <= MAX_RESOURCE
    ensures Sound(e.fixture)
  {
    hide CaptureRead, FramesTold, MeshSound, FrameSound, Fits, CountsInBounds, Selected, FAMILIES;
    HeaderIsSound(c, e, kept);
    MeshesAreSound(c, e, kept);
    FramesAreSound(c, e, kept);
    ShadersAreSound(e.fixture, Used(FAMILIES, kept.geometries));
    assert forall x :: x in e.fixture.resources ==> ResourceSound(x);
  }

  lemma {:induction false} ShadersAreSound(f: Fixture, used: seq<nat>)
    requires |f.shaders| == |used| &&
      (forall s: nat :: s < |used| ==> f.shaders[s].hash == used[s] && f.shaders[s].data != [])
    requires (forall x :: x in used ==> x in FAMILIES) && forall s :: s in f.shaders ==> |s.data| <= MAX_RESOURCE
    ensures forall x :: x in f.shaders ==> ShaderWritable(x) && x.data != []
  {
    forall x | x in f.shaders
      ensures ShaderWritable(x) && x.data != []
    {
      var s: nat :| s < |used| && f.shaders[s] == x;
      FamilyFits(used[s]);
    }
  }

  /**
   Every fixture extracted from a capture whose encoding stays within the size bounds is encoded, and the bounded reader
   accepts it with the fixture's own counts.
   */
  lemma {:induction false} ExportIsAccepted(c: Capture, e: Export, kept: Kept)
    requires CaptureRead(c) && Explained(c, e, kept) && forall s :: s in e.fixture.shaders ==> |s.data| <= MAX_RESOURCE
    requires |Encoding(e.fixture)| <= MAX_TOTAL
    ensures Writable(e.fixture) && Inspected(Encoding(e.fixture)) == Ok(CountsOf(e.fixture))
  {
    hide Sound, Explained, Encoding, Inspected, WellFormed, Writable;
    FixtureIsSound(c, e, kept);
    SoundIsWellFormed(e.fixture);
    EncodedIsInspected(e.fixture);
  }

  lemma {:induction false} WrittenShaders(f: Fixture)
    requires Writable(f)
    ensures forall s :: s in f.shaders ==> |s.data| <= MAX_RESOURCE
  {
  }

  /**
   export_capture: what was extracted, its file, and what the bounded reader found in it. It succeeds exactly when the
   extraction does and its file stays within the bounds; the reader then always accepts.
   */
  method ExportCapture(c: Capture, blobs: map<nat, seq<byte>>, limit: int)
      returns (r: Result<(Export, seq<byte>, Counts), ExportError>, ghost extracted: Result<Export, ExportError>,
        ghost kept: Kept)
    requires CaptureRead(c)
    ensures extracted.Ok? <==> Exportable(c, blobs, limit, true)
    ensures extracted.Ok? ==> |extracted.value.selected| == limit && Explained(c, extracted.value, kept)
    ensures r.Ok? <==>
      extracted.Ok? && Writable(extracted.value.fixture) && |Encoding(extracted.value.fixture)| <= MAX_TOTAL
    ensures r.Ok? ==>
      var (e, data, counts) := r.value;
      Ok(e) == extracted && data == Encoding(e.fixture) && counts == CountsOf(e.fixture)
  {
    hide Explained, Encoding, Inspected, Writable, Exportable;
    var e;
    e, kept := Extract(c, blobs, limit, true);
    extracted := e;
    if e.Err? {
      return Err(e.error), extracted, kept;
    }
    var data := Encode(e.value.fixture);
    if data.Err? {
      return Err(data.error), extracted, kept;
    }
    WrittenShaders(e.value.fixture);
    ExportIsAccepted(c, e.value, kept);
    var parsed := Inspect(data.value);
    return Ok((e.value, data.value, parsed.value)), extracted, kept;
  }
}
