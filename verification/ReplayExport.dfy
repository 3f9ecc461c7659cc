/**
 The export of tools/identity_fusion_capture.py: the first frame's draws are normalised and give their geometry to the
 draws of later frames that have the same stable key and come at the same occurrence of it.
 */
module ReplayExport {
  import opened Prelude
  import opened Bytes
  import opened Occurrences
  import opened ReplayGeometry
  import opened ReplayFixture

  const FAMILIES: seq<nat> := [0x7B0DC42D383F694C, 0x8B589D25B2A0ADDC, 0x114AF608F86D9ED8, 0xAACFDCF2FB9AD809,
      0x174E8D76363BE337]
  const MISSING: nat := 0xFFFF_FFFF
  const SOURCE_ORDINAL: nat := 0xFFFF_FFFE
  const INSTANCE_STRIDE: nat := 8

  /** A buffer of a mesh draw: bound from draw `firstDraw` of its frame on. */
  datatype MeshBuffer = MeshBuffer(stride: nat, frame: nat, firstDraw: nat, whole: nat, size: nat, data: seq<byte>)

  datatype Capture = Capture(draws: seq<Draw>, buffers: seq<MeshBuffer>)

  predicate Eligible(d: Draw) {
    d.ordinal == SOURCE_ORDINAL && d.vs in FAMILIES && d.instances == 1 && 0 < d.count <= MAX_INDICES &&
    d.count % 3 == 0
  }

  // ---------------------------------------------------------------- what a draw takes from the capture

  datatype Payload = Payload(pool: nat, bones: nat, instance: seq<byte>, cb1: seq<byte>, cb2: seq<byte>)

  function BufferOf(c: Capture, ref: nat, stride: nat, frame: nat, i: nat): Result<MeshBuffer, ExportError>
    requires stride > 0
  {
    if ref == MISSING || ref >= |c.buffers| then Err(UnknownResource)
    else
      var b := c.buffers[ref];
      if b.stride != stride || b.frame != frame || b.firstDraw > i then Err(ResourceDescriptor)
      else if !(0 < b.whole <= MAX_RESOURCE) then Err(ResourceTooLarge)
      else if b.whole % stride != 0 then Err(ResourceDescriptor)
      else if |b.data| != b.whole || b.size != b.whole then Err(ResourceIncomplete)
      else Ok(b)
  }

  function ConstantOf(k: Constant): Result<seq<byte>, ExportError> {
    if k.data == [] || |k.data| != k.whole || k.whole > MAX_CONSTANT || k.whole % 16 != 0 then Err(ConstantIncomplete)
    else Ok(k.data)
  }

  /** The draw's mesh buffers, its instance pair found through a binding (offset, stride), and its constants. */
  function PayloadOf(c: Capture, i: nat, binding: (nat, nat)): Result<Payload, ExportError>
    requires i < |c.draws|
  {
    var d := c.draws[i];
    if |d.mesh| != 3 then Err(UnknownResource)
    else
      var _ :- BufferOf(c, d.mesh[0], POOL_STRIDE, d.frame, i);
      var _ :- BufferOf(c, d.mesh[1], BONE_STRIDE, d.frame, i);
      var instances :- BufferOf(c, d.mesh[2], INSTANCE_STRIDE, d.frame, i);
      var begin := binding.0 + d.startInstance * binding.1;
      if binding.1 != INSTANCE_STRIDE then Err(InstanceDescriptor)
      else if begin + 8 > |instances.data| then Err(InstanceOutOfBounds)
      else if |d.buffers| < 3 then Err(ConstantMissing)
      else
        var cb1 :- ConstantOf(d.buffers[1]);
        var cb2 :- ConstantOf(d.buffers[2]);
        Ok(Payload(d.mesh[0], d.mesh[1], instances.data[begin..begin + 8], cb1, cb2))
  }

  function BindingOf(d: Draw): (nat, nat) {
    if d.streams == [] then (0, 0) else (d.streams[0].offset, d.streams[0].stride)
  }

  function SizeOf(d: Draw): (nat, nat) { (d.width, d.height) }

  /** What names a geometry: where it was bound and what it holds. */
  datatype Identity = Identity(source: SourceKey, vb: seq<byte>, ib: seq<byte>)

  function IdentityOf(g: Geometry): Identity { Identity(g.source, g.vb, g.ib) }

  /** The checks of a first-frame draw that depend on nothing else. */
  function Checked(c: Capture, i: nat): Result<(Geometry, Payload), ExportError>
    requires i < |c.draws|
  {
    var g :- Normalize(c.draws[i]);
    var p :- PayloadOf(c, i, BindingOf(c.draws[i]));
    if c.draws[i].width == 0 || c.draws[i].height == 0 then Err(DimensionsInvalid) else Ok((g, p))
  }

  lemma {:induction false} CheckedNormalizes(c: Capture, i: nat)
    requires i < |c.draws| && Checked(c, i).Ok?
    ensures Normalize(c.draws[i]) == Ok(Checked(c, i).value.0)
    ensures PayloadOf(c, i, BindingOf(c.draws[i])) == Ok(Checked(c, i).value.1)
    ensures c.draws[i].width != 0 && c.draws[i].height != 0
  {
    hide Normalize, PayloadOf;
  }

  /** The draw's geometry may be borrowed: it passes the checks and has the export's dimensions. */
  predicate Usable(c: Capture, dims: Option<(nat, nat)>, i: nat)
    requires i < |c.draws|
  {
    Checked(c, i).Ok? && dims == Some(SizeOf(c.draws[i]))
  }

  function IdentityAt(c: Capture, i: nat): Identity
    requires i < |c.draws| && Checked(c, i).Ok?
  {
    IdentityOf(Checked(c, i).value.0)
  }

  /** The items are draws of the capture. */
  ghost predicate InCapture(c: Capture, items: seq<nat>) { forall p: nat :: p < |items| ==> items[p] < |c.draws| }

  function Keys(c: Capture, items: seq<nat>): (keys: seq<StableKey>)
    requires InCapture(c, items)
    ensures |keys| == |items| && forall p :: 0 <= p < |items| ==> keys[p] == KeyOf(c.draws[items[p]])
  {
    seq(|items|, p requires 0 <= p < |items| => KeyOf(c.draws[items[p]]))
  }

  // ---------------------------------------------------------------- what the export says of a draw

  /** The output draws what the payload holds, with a geometry. */
  ghost predicate Emitted(c: Capture, resources: seq<Resource>, i: nat, geometry: nat, p: Payload, o: Output) {
    o.geometry == geometry && o.original == i && o.instance == p.instance && o.cb1 == p.cb1 && o.cb2 == p.cb2 &&
    p.pool < |c.buffers| && p.bones < |c.buffers| && o.pool < |resources| && o.bones < |resources| &&
    resources[o.pool] == Resource(POOL_STRIDE, c.buffers[p.pool].data) && resources[o.bones] == Resource(BONE_STRIDE,
        c.buffers[p.bones].data)
  }

  /** The state the verdicts are about: the first frame's draws and what was kept of them. */
  datatype Kept = Kept(first: seq<nat>, dims: Option<(nat, nat)>, geometries: seq<Geometry>, resources: seq<Resource>)

  /**
   A draw that passed its checks is drawn with the geometry of a first-frame draw, or there was no room for its buffers.
   */
  ghost predicate DrawnWith(c: Capture, kept: Kept, f: nat, i: nat, p: Payload, r: Result<Output, ExportError>)
    requires f < |c.draws| && Checked(c, f).Ok?
  {
    match r
    case Ok(o) =>
      o.geometry < |kept.geometries| && IdentityOf(kept.geometries[o.geometry]) == IdentityAt(c, f) &&
      Emitted(c, kept.resources, i, o.geometry, p, o)
    case Err(e) => e == ResourceCountExceeded && |kept.resources| == MAX_RESOURCES
  }

  /** What becomes of draw i of the first frame. */
  ghost predicate FirstVerdict(c: Capture, kept: Kept, i: nat, r: Result<Output, ExportError>)
    requires i < |c.draws|
  {
    match Checked(c, i)
    case Err(e) => r == Err(e)
    case Ok(checked) =>
      if kept.dims != Some(SizeOf(c.draws[i])) then r == Err(DimensionsMismatch)
      else DrawnWith(c, kept, i, i, checked.1, r)
  }

  /** Draws j of the first frame and p of a later one come at the same occurrence of the same stable key. */
  ghost predicate Corresponds(c: Capture, first: seq<nat>, later: seq<nat>, j: nat, p: nat)
    requires InCapture(c, first) && InCapture(c, later) && p < |later|
  {
    j < |first| && Keys(c, first)[j] == Keys(c, later)[p] && Nth(Keys(c, first), j) == Nth(Keys(c, later), p)
  }

  /** Draw a of the first frame is usable and has the key k. */
  ghost predicate UsableUnder(c: Capture, kept: Kept, k: StableKey, a: nat)
    requires InCapture(c, kept.first)
  {
    a < |kept.first| && KeyOf(c.draws[kept.first[a]]) == k && Usable(c, kept.dims, kept.first[a])
  }

  /** Usable draws of the first frame under the key k hold different geometries. */
  ghost predicate Ambiguous(c: Capture, kept: Kept, k: StableKey)
    requires InCapture(c, kept.first)
  {
    exists a: nat, b: nat :: UsableUnder(c, kept, k, a) && UsableUnder(c, kept, k, b) &&
      IdentityAt(c, kept.first[a]) != IdentityAt(c, kept.first[b])
  }

  /** A usable draw of the first frame corresponds to draw p of a later one. */
  ghost predicate Lends(c: Capture, kept: Kept, later: seq<nat>, j: nat, p: nat)
    requires InCapture(c, kept.first) && InCapture(c, later) && p < |later|
  {
    Corresponds(c, kept.first, later, j, p) && Usable(c, kept.dims, kept.first[j])
  }

  /** What becomes of draw i of a later frame that borrows from draw f. */
  ghost predicate BorrowVerdict(c: Capture, kept: Kept, f: nat, i: nat, r: Result<Output, ExportError>)
    requires f < |c.draws| && i < |c.draws| && Checked(c, f).Ok?
  {
    match PayloadOf(c, i, BindingOf(c.draws[f]))
    case Err(e) => r == Err(e)
    case Ok(p) =>
      if kept.dims != Some(SizeOf(c.draws[i])) then r == Err(DimensionsMismatch) else DrawnWith(c, kept, f, i, p, r)
  }

  /** What becomes of the p-th candidate of a later frame. */
  ghost predicate LaterVerdict(c: Capture, kept: Kept, later: seq<nat>, p: nat, r: Result<Output, ExportError>)
    requires InCapture(c, kept.first) && InCapture(c, later) && p < |later|
  {
    if Ambiguous(c, kept, KeyOf(c.draws[later[p]])) then r == Err(AmbiguousGeometryKey)
    else if !(exists j: nat :: Lends(c, kept, later, j, p)) then r == Err(GeometryUnavailable)
    else forall j: nat :: Lends(c, kept, later, j, p) ==> BorrowVerdict(c, kept, kept.first[j], later[p], r)
  }

  // ---------------------------------------------------------------- verdicts of a frame

  function Oks<T, E>(rs: seq<Result<T, E>>): seq<T> {
    if rs == [] then [] else Oks(rs[..|rs| - 1]) + match rs[|rs| - 1] { case Ok(v) => [v] case Err(_) => [] }
  }

  function Errs<T, E>(rs: seq<Result<T, E>>): multiset<E> {
    if rs == [] then multiset{}
    else Errs(rs[..|rs| - 1]) + match rs[|rs| - 1] { case Ok(_) => multiset{} case Err(e) => multiset{e} }
  }

  lemma {:induction false} VerdictStep<T, E>(rs: seq<Result<T, E>>, r: Result<T, E>)
    ensures Oks(rs + [r]) == Oks(rs) + match r { case Ok(v) => [v] case Err(_) => [] }
    ensures Errs(rs + [r]) == Errs(rs) + match r { case Ok(_) => multiset{} case Err(e) => multiset{e} }
  {
    assert (rs + [r])[..|rs|] == rs;
  }

  /** Every candidate is accepted or counted as skipped. */
  lemma {:induction false} NoneIsLost<T, E>(rs: seq<Result<T, E>>)
    ensures |Oks(rs)| + |Errs(rs)| == |rs|
  {
    if rs != [] {
      NoneIsLost(rs[..|rs| - 1]);
    }
  }

  lemma {:induction false} OkFrom<T, E>(rs: seq<Result<T, E>>, v: T) returns (p: nat)
    requires v in Oks(rs)
    ensures p < |rs| && rs[p] == Ok(v)
  {
    var n := |rs| - 1;
    if v in Oks(rs[..n]) {
      p := OkFrom(rs[..n], v);
    } else {
      p := n;
    }
  }

  lemma {:induction false} OkAt<T, E>(rs: seq<Result<T, E>>, a: nat) returns (p: nat)
    requires a < |Oks(rs)|
    ensures p < |rs| && rs[p] == Ok(Oks(rs)[a])
  {
    var n := |rs| - 1;
    if a < |Oks(rs[..n])| {
      p := OkAt(rs[..n], a);
    } else {
      p := n;
    }
  }

  /** What is accepted keeps its order. */
  lemma {:induction false} OksInOrder<T, E>(rs: seq<Result<T, E>>, a: nat, b: nat) returns (p: nat, q: nat)
    requires a < b < |Oks(rs)|
    ensures p < q < |rs| && rs[p] == Ok(Oks(rs)[a]) && rs[q] == Ok(Oks(rs)[b])
  {
    var n := |rs| - 1;
    if b < |Oks(rs[..n])| {
      p, q := OksInOrder(rs[..n], a, b);
    } else {
      p := OkAt(rs[..n], a);
      q := n;
    }
  }

  // ---------------------------------------------------------------- the exporter

  /** A geometry a later draw may borrow, and where the instances of its draw were bound. */
  datatype Slot = Slot(geometry: nat, binding: (nat, nat))

  function Want<V>(m: map<StableKey, seq<V>>, k: StableKey): seq<V> { if k in m then m[k] else [] }

  class Exporter {
    const capture: Capture
    var resources: seq<Resource>
    var byRef: map<nat, nat>
    var geometries: seq<Geometry>
    var byIdentity: map<Identity, nat>
    var slots: map<StableKey, seq<Option<Slot>>>
    var dimensions: Option<(nat, nat)>

    constructor (capture: Capture)
      ensures Valid() && this.capture == capture
      ensures resources == [] && geometries == [] && slots == map[] && dimensions == None
    {
      this.capture := capture;
      resources, byRef, geometries, byIdentity, slots, dimensions := [], map[], [], map[], map[], None;
    }

    /** The dictionaries say where each buffer and each geometry was put, once. */
    ghost predicate Valid()
      reads `resources, `byRef, `geometries, `byIdentity, `dimensions
    {
      |resources| <= MAX_RESOURCES && |geometries| <= MAX_GEOMETRIES &&
      (forall i: nat :: i < |resources| ==> ResourceSound(resources[i])) &&
      (forall ref :: ref in byRef ==> PlacedAt(ref, byRef[ref])) &&
      (dimensions.Some? ==> dimensions.value.0 != 0 && dimensions.value.1 != 0) &&
      (forall id :: id in byIdentity ==>
        byIdentity[id] < |geometries| && IdentityOf(geometries[byIdentity[id]]) == id) &&
      forall g: nat :: g < |geometries| ==>
        IdentityOf(geometries[g]) in byIdentity && byIdentity[IdentityOf(geometries[g])] == g
    }

    /** The captured buffer is the resource at index. */
    ghost predicate PlacedAt(ref: nat, index: nat)
      reads `resources
    {
      ref < |capture.buffers| && index < |resources| && resources[index] == Resource(capture.buffers[ref].stride,
          capture.buffers[ref].data)
    }

    /** What the verdicts over the draws are about. */
    ghost function State(first: seq<nat>): Kept
      reads `resources, `geometries, `dimensions
    {
      Kept(first, dimensions, geometries, resources)
    }

    /** The place of a captured buffer among the resources, put there if it is new. */
    method TakeResource(ref: nat, stride: nat) returns (r: Result<nat, ExportError>)
      requires Valid() && ref < |capture.buffers|
      requires ResourceSound(Resource(stride, capture.buffers[ref].data)) && capture.buffers[ref].stride == stride
      modifies this`resources, this`byRef
      ensures Valid() && old(resources) <= resources
      ensures r.Ok? ==> r.value < |resources| && resources[r.value] == Resource(stride, capture.buffers[ref].data)
      ensures r.Err? <==> ref !in old(byRef) && |old(resources)| == MAX_RESOURCES
      ensures r.Err? ==> r.error == ResourceCountExceeded
      ensures resources == if ref in old(byRef) || r.Err? then old(resources)
        else old(resources) + [Resource(stride, capture.buffers[ref].data)]
      ensures byRef == if r.Ok? then old(byRef)[ref := r.value] else old(byRef)
    {
      if ref in byRef {
        var index := byRef[ref];
        if resources[index].stride != stride {
          return Err(ResourceDescriptor);
        }
        return Ok(index);
      }
      if |resources| >= MAX_RESOURCES {
        return Err(ResourceCountExceeded);
      }
      var index := |resources|;
      byRef := byRef[ref := index];
      resources := resources + [Resource(stride, capture.buffers[ref].data)];
      return Ok(index);
    }

    /** The place of a geometry, put there if it is new. */
    method TakeGeometry(g: Geometry) returns (r: Result<nat, ExportError>)
      requires Valid()
      modifies this`geometries, this`byIdentity
      ensures Valid() && old(geometries) <= geometries && |resources| <= MAX_RESOURCES
      ensures r.Ok? ==> r.value < |geometries| && IdentityOf(geometries[r.value]) == IdentityOf(g)
      ensures r.Err? <==> IdentityOf(g) !in old(byIdentity) && |old(geometries)| == MAX_GEOMETRIES
      ensures r.Err? ==> r.error == GeometryCountExceeded
      ensures geometries == if IdentityOf(g) in old(byIdentity) || r.Err? then old(geometries)
        else old(geometries) + [g]
    {
      var id := IdentityOf(g);
      if id in byIdentity {
        return Ok(byIdentity[id]);
      }
      if |geometries| >= MAX_GEOMETRIES {
        return Err(GeometryCountExceeded);
      }
      byIdentity := byIdentity[id := |geometries|];
      geometries := geometries + [g];
      return Ok(|geometries| - 1);
    }

    /** The output of a draw that passed its checks. */
    method Emit(i: nat, geometry: nat, p: Payload, ghost binding: (nat, nat)) returns (r: Result<Output, ExportError>)
      requires Valid() && i < |capture.draws| && PayloadOf(capture, i, binding) == Ok(p)
      modifies this`resources, this`byRef
      ensures Valid() && old(resources) <= resources && |resources| <= MAX_RESOURCES
      ensures r.Ok? ==> Emitted(capture, resources, i, geometry, p, r.value)
      ensures r.Err? ==> r.error == ResourceCountExceeded && |resources| == MAX_RESOURCES
    {
      PayloadBuffers(capture, i, binding);
      var pool :- TakeResource(p.pool, POOL_STRIDE);
      var bones :- TakeResource(p.bones, BONE_STRIDE);
      return Ok(Output(geometry, pool, bones, i, p.instance, p.cb1, p.cb2));
    }

    /** A usable draw of the first frame is registered, and then drawn if there is room for its buffers. */
    method PlaceDraw(i: nat, g: Geometry, p: Payload, ghost first: seq<nat>)
        returns (r: Result<Output, ExportError>, slot: Option<Slot>)
      requires Valid() && i < |capture.draws| && Checked(capture, i) == Ok((g, p))
      requires dimensions == Some(SizeOf(capture.draws[i]))
      modifies this`resources, this`byRef, this`geometries, this`byIdentity
      ensures Valid() && Grows(old(State(first)), State(first))
      ensures geometries == old(geometries) || geometries == old(geometries) + [g]
      ensures |old(geometries)| < MAX_GEOMETRIES ==>
        FirstVerdict(capture, State(first), i, r) && EntryFor(capture, State(first), i, slot)
    {
      hide Valid, Checked, IdentityOf, Emitted, SizeOf, BindingOf, FirstVerdict, EntryFor, SlotFor, PayloadOf,
        Normalize;
      var binding := BindingOf(capture.draws[i]);
      CheckedNormalizes(capture, i);
      var place := TakeGeometry(g);
      if place.Err? {
        return Err(place.error), None;
      }
      slot := Some(Slot(place.value, binding));
      PlacedSlot(capture, geometries, i, g, place.value);
      r := Emit(i, place.value, p, binding);
      PlacedVerdict(capture, State(first), i, r, slot.value);
    }

    /** A draw of the first frame: its output, and the slot later draws may borrow even if it has none. */
    method FirstDraw(i: nat, ghost first: seq<nat>) returns (r: Result<Output, ExportError>, slot: Option<Slot>)
      requires Valid() && i < |capture.draws|
      modifies this`resources, this`byRef, this`geometries, this`byIdentity, this`dimensions
      ensures Valid() && Grows(old(State(first)), State(first))
      ensures geometries != old(geometries) ==>
        Usable(capture, dimensions, i) && geometries == old(geometries) + [Checked(capture, i).value.0]
      ensures dimensions == if old(dimensions).None? && Checked(capture, i).Ok? then Some(SizeOf(capture.draws[i]))
        else old(dimensions)
      ensures |old(geometries)| < MAX_GEOMETRIES ==>
        FirstVerdict(capture, State(first), i, r) && EntryFor(capture, State(first), i, slot)
    {
      hide Normalize, PayloadOf, IdentityOf, PlacedAt, ResourceSound, BindingOf;
      slot := None;
      var d := capture.draws[i];
      var normalized := Normalize(d);
      if normalized.Err? {
        return Err(normalized.error), slot;
      }
      var payload := PayloadOf(capture, i, BindingOf(d));
      if payload.Err? {
        return Err(payload.error), slot;
      }
      if d.width == 0 || d.height == 0 {
        return Err(DimensionsInvalid), slot;
      }
      if dimensions.None? {
        dimensions := Some(SizeOf(d));
      } else if SizeOf(d) != dimensions.value {
        return Err(DimensionsMismatch), slot;
      }
      r, slot := PlaceDraw(i, normalized.value, payload.value, first);
    }

    /** A draw of a later frame, with the geometry and the instance binding of the slot of draw f. */
    method LaterDraw(i: nat, slot: Slot, ghost f: nat, ghost first: seq<nat>) returns (r: Result<Output, ExportError>)
      requires Valid() && i < |capture.draws| && f < |capture.draws| && SlotFor(capture, geometries, f, slot)
      modifies this`resources, this`byRef
      ensures Valid() && old(resources) <= resources
      ensures BorrowVerdict(capture, State(first), f, i, r)
    {
      var p :- PayloadOf(capture, i, slot.binding);
      if dimensions != Some(SizeOf(capture.draws[i])) {
        return Err(DimensionsMismatch);
      }
      r := Emit(i, slot.geometry, p, slot.binding);
    }

    /** The draws before the n-th of the first frame have their verdicts and left their slots. */
    ghost predicate Progress(items: seq<nat>, n: nat, verdicts: seq<Result<Output, ExportError>>,
        entries: seq<Option<Slot>>)
      requires n <= |items| && InCapture(capture, items)
      reads this
    {
      |geometries| <= n && FirstJudged(capture, State(items), items[..n], verdicts, entries) &&
      SlotsAre(slots, Keys(capture, items[..n]), entries) && FirstSized(capture, items[..n], dimensions) &&
      GeometriesFrom(capture, items[..n], dimensions, geometries)
    }

    /** The n-th draw of the first frame. */
    method FirstStep(items: seq<nat>, n: nat, ghost verdicts: seq<Result<Output, ExportError>>,
        ghost entries: seq<Option<Slot>>)
        returns (r: Result<Output, ExportError>, ghost slot: Option<Slot>)
      requires Valid() && n < |items| <= MAX_DRAWS && InCapture(capture, items) && Progress(items, n, verdicts, entries)
      modifies this
      ensures Valid() && Progress(items, n + 1, verdicts + [r], entries + [slot])
    {
      hide Grows, Checked, FirstVerdict, EntryFor, KeyOf, SlotsAre, FirstSized, GeometriesFrom, Want;
      ghost var before := State(items);
      assert |entries| == n;
      var key := KeyOf(capture.draws[items[n]]);
      var s;
      r, s := FirstDraw(items[n], items);
      slot := s;
      SizedStep(capture, items, n, before.dims, dimensions);
      FromStep(capture, items, n, before, State(items));
      JudgedStep(capture, items, n, before, State(items), verdicts, entries, r, slot);
      SlotsStep(slots, Keys(capture, items[..n]), entries, key, slot);
      KeysStep(capture, items, n);
      slots := slots[key := Want(slots, key) + [s]];
    }

    /** The draws of the first frame, one by one; entries are the slots they leave. */
    method FirstFrame(items: seq<nat>)
        returns (draws: seq<Output>, skips: multiset<ExportError>, ghost verdicts: seq<Result<Output, ExportError>>,
            ghost entries: seq<Option<Slot>>)
      requires Valid() && InCapture(capture, items) && |items| <= MAX_DRAWS
      requires geometries == [] && slots == map[] && dimensions == None
      modifies this
      ensures Valid() && Progress(items, |items|, verdicts, entries) && Tallied(verdicts, draws, skips)
    {
      draws, skips, verdicts, entries := [], multiset{}, [], [];
      FirstStart(capture, State(items), items);
      hide Progress, Tallied;
      for n := 0 to |items|
        invariant Valid() && Progress(items, n, verdicts, entries) && Tallied(verdicts, draws, skips)
      {
        var r, slot := FirstStep(items, n, verdicts, entries);
        TallyStep(verdicts, draws, skips, r);
        match r {
          case Ok(o) => draws := draws + [o];
          case Err(e) => skips := skips + multiset{e};
        }
        verdicts, entries := verdicts + [r], entries + [slot];
      }
    }

    /** The p-th candidate of a later frame, which is the occurrence-th of its key there. */
    method LaterStep(ghost first: seq<nat>, later: seq<nat>, p: nat, occurrence: nat, ambiguous: bool,
        ghost entries: seq<Option<Slot>>)
        returns (r: Result<Output, ExportError>)
      requires Valid() && InCapture(capture, first) && InCapture(capture, later) && p < |later|
      requires Matched(capture, State(first), slots, entries)
      requires occurrence == Nth(Keys(capture, later), p)
      requires ambiguous == Ambiguous(capture, State(first), KeyOf(capture.draws[later[p]]))
      modifies this`resources, this`byRef
      ensures Valid() && Grows(old(State(first)), State(first)) && LaterVerdict(capture, State(first), later, p, r)
    {
      hide Matched, Ambiguous, Lends, BorrowVerdict, SlotFor, Nth, PlacedAt;
      var key := KeyOf(capture.draws[later[p]]);
      ghost var before := State(first);
      if ambiguous {
        return Err(AmbiguousGeometryKey);
      }
      LendersAreChoices(capture, State(first), slots, entries, later, p);
      var choices := Want(slots, key);
      if occurrence >= |choices| || choices[occurrence].None? {
        return Err(GeometryUnavailable);
      }
      ghost var j: nat :| Lends(capture, State(first), later, j, p);
      r := LaterDraw(later[p], choices[occurrence].value, first[j], first);
      BorrowedVerdict(capture, before, resources, later, p, j, r);
    }

    /** The p-th candidate of a later frame, after those before it; kept is what the frame began with. */
    method LaterTurn(ghost kept: Kept, later: seq<nat>, p: nat, occurrence: nat, ambiguous: bool,
        ghost entries: seq<Option<Slot>>, ghost verdicts: seq<Result<Output, ExportError>>)
        returns (r: Result<Output, ExportError>)
      requires Valid() && InCapture(capture, kept.first) && InCapture(capture, later) && p < |later|
      requires Matched(capture, kept, slots, entries) && Grows(kept, State(kept.first)) &&
          State(kept.first) == kept.(resources := resources)
      requires occurrence == Nth(Keys(capture, later), p) && ambiguous == Ambiguous(capture, kept,
          KeyOf(capture.draws[later[p]]))
      requires LaterJudged(capture, State(kept.first), later, p, verdicts)
      modifies this`resources, this`byRef
      ensures Valid() && Grows(kept, State(kept.first)) && LaterJudged(capture, State(kept.first), later, p + 1,
          verdicts + [r])
    {
      hide Valid, Matched, LaterVerdict, LaterJudged, KeyOf, Grows, Ambiguous, Nth, Keys;
      ghost var before := State(kept.first);
      MatchedStays(capture, kept, before, slots, entries);
      AmbiguousStays(capture, kept, before.resources, KeyOf(capture.draws[later[p]]));
      r := LaterStep(kept.first, later, p, occurrence, ambiguous, entries);
      JudgedLater(capture, before, State(kept.first), later, p, verdicts, r);
      GrowsTransitive(kept, before, State(kept.first));
    }

    /** The keys under which usable draws of the first frame left different geometries. */
    method AmbiguousAmong(ghost first: seq<nat>, ghost entries: seq<Option<Slot>>) returns (ambiguous: set<StableKey>)
      requires InCapture(capture, first) && Matched(capture, State(first), slots, entries)
      ensures forall k :: k in ambiguous <==> Ambiguous(capture, State(first), k)
    {
      hide Matched, Ambiguous, Differ;
      ambiguous := set k | k in slots && Differ(slots[k], geometries);
      AmbiguousKeys(capture, State(first), slots, entries, ambiguous);
    }

    /** The p-th candidate of a later frame, at the occurrence of its key that the counter says. */
    method LaterNext(ghost kept: Kept, later: seq<nat>, p: nat, occurrence: map<StableKey, nat>,
        ambiguous: set<StableKey>, ghost entries: seq<Option<Slot>>, ghost verdicts: seq<Result<Output, ExportError>>)
        returns (r: Result<Output, ExportError>, counted: map<StableKey, nat>)
      requires Valid() && InCapture(capture, kept.first) && InCapture(capture, later) && p < |later|
      requires Matched(capture, kept, slots, entries) && Grows(kept, State(kept.first))
      requires State(kept.first) == kept.(resources := resources)
      requires Counted(occurrence, Keys(capture, later), p)
      requires forall k :: k in ambiguous <==> Ambiguous(capture, kept, k)
      requires LaterJudged(capture, State(kept.first), later, p, verdicts)
      modifies this`resources, this`byRef
      ensures Valid() && Grows(kept, State(kept.first)) && Counted(counted, Keys(capture, later), p + 1)
      ensures LaterJudged(capture, State(kept.first), later, p + 1, verdicts + [r])
    {
      hide Valid, Matched, LaterJudged, KeyOf, Counted, Grows, Ambiguous, Nth;
      var key := KeyOf(capture.draws[later[p]]);
      var nth := if key in occurrence then occurrence[key] else 0;
      CountedStep(occurrence, Keys(capture, later), p);
      counted := occurrence[key := nth + 1];
      r := LaterTurn(kept, later, p, nth, key in ambiguous, entries, verdicts);
    }

    /** The candidates of a later frame, one by one. */
    method LaterFrame(ghost first: seq<nat>, later: seq<nat>, ghost entries: seq<Option<Slot>>)
        returns (draws: seq<Output>, skips: multiset<ExportError>, ghost verdicts: seq<Result<Output, ExportError>>)
      requires Valid() && InCapture(capture, first) && InCapture(capture, later)
      requires Matched(capture, State(first), slots, entries)
      modifies this`resources, this`byRef
      ensures Valid() && Grows(old(State(first)), State(first))
      ensures LaterJudged(capture, State(first), later, |later|, verdicts) && Tallied(verdicts, draws, skips)
    {
      draws, skips, verdicts := [], multiset{}, [];
      var occurrence: map<StableKey, nat> := map[];
      var ambiguous := AmbiguousAmong(first, entries);
      ghost var kept := State(first);
      LaterStart(capture, kept, later);
      GrowsReflexive(kept);
      hide Valid, Matched, LaterJudged, Tallied, Counted, Grows, Ambiguous, InCapture;
      for p := 0 to |later|
        invariant Valid() && Grows(kept, State(first)) && LaterJudged(capture, State(first), later, p, verdicts)
        invariant Tallied(verdicts, draws, skips) && Counted(occurrence, Keys(capture, later), p)
      {
        var r;
        r, occurrence := LaterNext(kept, later, p, occurrence, ambiguous, entries, verdicts);
        TallyStep(verdicts, draws, skips, r);
        match r {
          case Ok(o) => draws := draws + [o];
          case Err(e) => skips := skips + multiset{e};
        }
        verdicts := verdicts + [r];
      }
    }
  }

  /** The slot holds the geometry and the instance binding of draw i. */
  ghost predicate SlotFor(c: Capture, geometries: seq<Geometry>, i: nat, slot: Slot)
    requires i < |c.draws|
  {
    Checked(c, i).Ok? && slot.geometry < |geometries| && IdentityOf(geometries[slot.geometry]) == IdentityAt(c, i) &&
    slot.binding == BindingOf(c.draws[i])
  }

  /** The reference names a whole buffer of the stride, bound in the draw's frame by then. */
  predicate Bound(c: Capture, ref: nat, stride: nat, frame: nat, i: nat)
    requires stride > 0
  {
    ref != 0xFFFF_FFFF && ref < |c.buffers| && c.buffers[ref].stride == stride && c.buffers[ref].frame == frame &&
    c.buffers[ref].firstDraw <= i && 0 < c.buffers[ref].whole <= 16777216 && c.buffers[ref].whole % stride == 0 &&
    |c.buffers[ref].data| == c.buffers[ref].whole == c.buffers[ref].size
  }

  predicate ConstantWhole(k: Constant) { 0 < |k.data| == k.whole <= 8192 && k.whole % 16 == 0 }

  lemma BoundIff(c: Capture, ref: nat, stride: nat, frame: nat, i: nat)
    requires stride > 0
    ensures BufferOf(c, ref, stride, frame, i).Ok? <==> Bound(c, ref, stride, frame, i)
    ensures BufferOf(c, ref, stride, frame, i).Ok? ==> BufferOf(c, ref, stride, frame, i).value == c.buffers[ref]
  {
  }

  /**
   A draw has a payload exactly when its three buffers are bound, of 336, 48 and 8 bytes an item, its pair lies in the
   last, and its second and third constants are whole; and then these are what it holds.
   */
  lemma {:induction false} PayloadIff(c: Capture, i: nat, binding: (nat, nat))
    requires i < |c.draws|
    ensures var d := c.draws[i];
      PayloadOf(c, i, binding).Ok? <==>
        |d.mesh| == 3 && Bound(c, d.mesh[0], 336, d.frame, i) && Bound(c, d.mesh[1], 48, d.frame, i) &&
        Bound(c, d.mesh[2], 8, d.frame, i) && binding.1 == 8 &&
        binding.0 + 8 * d.startInstance + 8 <= |c.buffers[d.mesh[2]].data| &&
        |d.buffers| >= 3 && ConstantWhole(d.buffers[1]) && ConstantWhole(d.buffers[2])
    ensures PayloadOf(c, i, binding).Ok? ==>
      var d, p := c.draws[i], PayloadOf(c, i, binding).value;
      p.pool == d.mesh[0] && p.bones == d.mesh[1] && p.cb1 == d.buffers[1].data && p.cb2 == d.buffers[2].data &&
      p.instance == c.buffers[d.mesh[2]].data[binding.0 + 8 * d.startInstance..][..8]
  {
    hide BufferOf;
    var d := c.draws[i];
    if |d.mesh| == 3 {
      BoundIff(c, d.mesh[0], POOL_STRIDE, d.frame, i);
      BoundIff(c, d.mesh[1], BONE_STRIDE, d.frame, i);
      BoundIff(c, d.mesh[2], INSTANCE_STRIDE, d.frame, i);
    }
  }

  /** Why a buffer is refused. */
  lemma BufferTells(c: Capture, ref: nat, stride: nat, frame: nat, i: nat)
    requires stride > 0
    ensures var r := BufferOf(c, ref, stride, frame, i);
      if ref == 0xFFFF_FFFF || ref >= |c.buffers| then r == Err(UnknownResource)
      else
        var b := c.buffers[ref];
        var described, whole := b.stride == stride && b.frame == frame && b.firstDraw <= i, 0 < b.whole <= 16777216;
        (r == Err(ResourceTooLarge) <==> described && !whole) &&
        (r == Err(ResourceDescriptor) <==> !described || (whole && b.whole % stride != 0)) &&
        (r == Err(ResourceIncomplete) <==> described && whole && b.whole % stride == 0 && r.Err?) &&
        (r.Ok? ==> |b.data| == b.whole == b.size) && r != Err(UnknownResource)
  {
  }

  /** Why a payload is refused: a buffer, and then the instance pair, and then the constants. */
  lemma {:induction false} PayloadTells(c: Capture, i: nat, binding: (nat, nat))
    requires i < |c.draws|
    ensures var d, r := c.draws[i], PayloadOf(c, i, binding);
      if |d.mesh| != 3 then r == Err(UnknownResource)
      else
        var pool, bones := BufferOf(c, d.mesh[0], 336, d.frame, i), BufferOf(c, d.mesh[1], 48, d.frame, i);
        var instances := BufferOf(c, d.mesh[2], 8, d.frame, i);
        if pool.Err? then r == Err(pool.error)
        else if bones.Err? then r == Err(bones.error)
        else if instances.Err? then r == Err(instances.error)
        else
          var there := binding.0 + 8 * d.startInstance + 8 <= |instances.value.data|;
          (r == Err(InstanceDescriptor) <==> binding.1 != 8) &&
          (r == Err(InstanceOutOfBounds) <==> binding.1 == 8 && !there) &&
          (r == Err(ConstantMissing) <==> binding.1 == 8 && there && |d.buffers| < 3) &&
          (r == Err(ConstantIncomplete) ==> binding.1 == 8 && there && |d.buffers| >= 3) &&
          (binding.1 == 8 && there && |d.buffers| >= 3 ==> r.Ok? || r == Err(ConstantIncomplete))
  {
    hide BufferOf;
  }

  lemma {:induction false} PlacedSlot(c: Capture, geometries: seq<Geometry>, i: nat, g: Geometry, place: nat)
    requires i < |c.draws| && Checked(c, i).Ok? && Checked(c, i).value.0 == g
    requires place < |geometries| && IdentityOf(geometries[place]) == IdentityOf(g)
    ensures SlotFor(c, geometries, i, Slot(place, BindingOf(c.draws[i])))
  {
    hide Checked, IdentityOf;
  }

  lemma {:induction false} PlacedVerdict(c: Capture, kept: Kept, i: nat, r: Result<Output, ExportError>, slot: Slot)
    requires i < |c.draws| && Usable(c, kept.dims, i) && SlotFor(c, kept.geometries, i, slot)
    requires r.Ok? ==> Emitted(c, kept.resources, i, slot.geometry, Checked(c, i).value.1, r.value)
    requires r.Err? ==> r.error == ResourceCountExceeded && |kept.resources| == MAX_RESOURCES
    ensures FirstVerdict(c, kept, i, r) && EntryFor(c, kept, i, Some(slot))
  {
    hide Checked, IdentityOf;
    assert r.Ok? ==> r.value.geometry == slot.geometry;
  }

  /** A payload's buffers are whole, and bound with the strides asked for. */
  lemma {:induction false} PayloadBuffers(c: Capture, i: nat, binding: (nat, nat))
    requires i < |c.draws| && PayloadOf(c, i, binding).Ok?
    ensures var p := PayloadOf(c, i, binding).value;
      p.pool < |c.buffers| && p.bones < |c.buffers| &&
      c.buffers[p.pool].stride == POOL_STRIDE && ResourceSound(Resource(POOL_STRIDE, c.buffers[p.pool].data)) &&
      c.buffers[p.bones].stride == BONE_STRIDE && ResourceSound(Resource(BONE_STRIDE, c.buffers[p.bones].data)) &&
      |p.instance| == 8 && 0 < |p.cb1| <= MAX_CONSTANT && 0 < |p.cb2| <= MAX_CONSTANT
  {
  }

  // ---------------------------------------------------------------- what the loops keep

  /** Each slot list holds what the draws so far left under its key. */
  ghost predicate SlotsAre(slots: map<StableKey, seq<Option<Slot>>>, keys: seq<StableKey>, entries: seq<Option<Slot>>)
    requires |keys| == |entries|
  {
    forall k :: Want(slots, k) == Under(keys, entries, k)
  }

  /** A first-frame draw leaves a slot exactly when it is usable, and then its own. */
  ghost predicate EntryFor(c: Capture, kept: Kept, i: nat, entry: Option<Slot>)
    requires i < |c.draws|
  {
    (entry.Some? <==> Usable(c, kept.dims, i)) && (entry.Some? ==> SlotFor(c, kept.geometries, i, entry.value))
  }

  /** The dimensions are those of the first draw that passes the checks. */
  ghost predicate FirstSized(c: Capture, items: seq<nat>, dims: Option<(nat, nat)>)
    requires InCapture(c, items)
  {
    match dims
    case None => forall p: nat :: p < |items| ==> Checked(c, items[p]).Err?
    case Some(size) => exists p: nat :: p < |items| && Checked(c, items[p]).Ok? && SizeOf(c.draws[items[p]]) == size &&
                                        forall q: nat :: q < p ==> Checked(c, items[q]).Err?
  }

  /** Every geometry kept is the normal form of a usable draw of the first frame. */
  ghost predicate GeometriesFrom(c: Capture, items: seq<nat>, dims: Option<(nat, nat)>, geometries: seq<Geometry>)
    requires InCapture(c, items)
  {
    forall g: nat :: g < |geometries| ==> GeometryFrom(c, items, dims, geometries[g])
  }

  ghost predicate GeometryFrom(c: Capture, items: seq<nat>, dims: Option<(nat, nat)>, g: Geometry)
    requires InCapture(c, items)
  {
    exists p: nat :: p < |items| && Usable(c, dims, items[p]) && g == Checked(c, items[p]).value.0
  }

  /** A draw of the first frame has its verdict, and left the slot it should. */
  ghost predicate FirstJudged(c: Capture, kept: Kept, items: seq<nat>, verdicts: seq<Result<Output, ExportError>>,
      entries: seq<Option<Slot>>)
    requires InCapture(c, items)
  {
    |verdicts| == |items| && |entries| == |items| &&
    forall p: nat :: p < |items| ==>
      FirstVerdict(c, kept, items[p], verdicts[p]) && EntryFor(c, kept, items[p], entries[p])
  }

  ghost predicate Tallied(verdicts: seq<Result<Output, ExportError>>, draws: seq<Output>,
      skips: multiset<ExportError>) {
    draws == Oks(verdicts) && skips == Errs(verdicts)
  }

  lemma {:induction false} TallyStep(verdicts: seq<Result<Output, ExportError>>, draws: seq<Output>,
      skips: multiset<ExportError>, r: Result<Output, ExportError>)
    requires Tallied(verdicts, draws, skips)
    ensures r.Ok? ==> Tallied(verdicts + [r], draws + [r.value], skips)
    ensures r.Err? ==> Tallied(verdicts + [r], draws, skips + multiset{r.error})
  {
    VerdictStep(verdicts, r);
  }

  /** The exporter only adds; the dimensions are set once. */
  ghost predicate Grows(k: Kept, k': Kept) {
    k.geometries <= k'.geometries && k.resources <= k'.resources && |k'.resources| <= MAX_RESOURCES
  }

  lemma {:induction false} VerdictStays(c: Capture, k: Kept, k': Kept, i: nat, r: Result<Output, ExportError>,
      entry: Option<Slot>)
    requires i < |c.draws| && Grows(k, k') && (k.dims == k'.dims || Checked(c, i).Err?)
    requires FirstVerdict(c, k, i, r) && EntryFor(c, k, i, entry)
    ensures FirstVerdict(c, k', i, r) && EntryFor(c, k', i, entry)
  {
    hide Checked, IdentityOf;
  }

  lemma {:induction false} KeysStep(c: Capture, items: seq<nat>, n: nat)
    requires n < |items| && InCapture(c, items)
    ensures Keys(c, items[..n + 1]) == Keys(c, items[..n]) + [KeyOf(c.draws[items[n]])]
  {
    hide KeyOf;
  }

  lemma {:induction false} FirstStart(c: Capture, kept: Kept, items: seq<nat>)
    requires InCapture(c, items)
    ensures FirstJudged(c, kept, items[..0], [], []) && SlotsAre(map[], Keys(c, items[..0]), [])
    ensures FirstSized(c, items[..0], None) && GeometriesFrom(c, items[..0], None, []) && Tallied([], [], multiset{})
  {
  }

  lemma {:induction false} JudgedStep(c: Capture, items: seq<nat>, n: nat, k: Kept, k': Kept,
      verdicts: seq<Result<Output, ExportError>>, entries: seq<Option<Slot>>, r: Result<Output, ExportError>,
      entry: Option<Slot>)
    requires n < |items| && InCapture(c, items) && FirstJudged(c, k, items[..n], verdicts, entries) && Grows(k, k')
    requires FirstVerdict(c, k', items[n], r) && EntryFor(c, k', items[n], entry)
    requires k.dims == k'.dims || forall p: nat :: p < n ==> Checked(c, items[p]).Err?
    ensures FirstJudged(c, k', items[..n + 1], verdicts + [r], entries + [entry])
  {
    hide Checked, FirstVerdict, EntryFor;
    forall p: nat | p < n
      ensures FirstVerdict(c, k', items[p], verdicts[p]) && EntryFor(c, k', items[p], entries[p])
    {
      assert items[..n][p] == items[p];
      VerdictStays(c, k, k', items[p], verdicts[p], entries[p]);
    }
  }

  lemma {:induction false} SlotsStep(slots: map<StableKey, seq<Option<Slot>>>, keys: seq<StableKey>,
      entries: seq<Option<Slot>>, key: StableKey, entry: Option<Slot>)
    requires |keys| == |entries| && SlotsAre(slots, keys, entries)
    ensures SlotsAre(slots[key := Want(slots, key) + [entry]], keys + [key], entries + [entry])
  {
    forall k
      ensures Want(slots[key := Want(slots, key) + [entry]], k) == Under(keys + [key], entries + [entry], k)
    {
      UnderStep(keys, entries, key, entry, k);
    }
  }

  lemma {:induction false} SizedStep(c: Capture, items: seq<nat>, n: nat, before: Option<(nat, nat)>,
      after: Option<(nat, nat)>)
    requires n < |items| && InCapture(c, items) && FirstSized(c, items[..n], before)
    requires after == if before.None? && Checked(c, items[n]).Ok? then Some(SizeOf(c.draws[items[n]])) else before
    ensures FirstSized(c, items[..n + 1], after)
    ensures before == after || forall p: nat :: p < n ==> Checked(c, items[p]).Err?
  {
    hide Checked, SizeOf;
    assert forall p: nat :: p < n ==> items[..n + 1][p] == items[..n][p] == items[p];
    assert items[..n + 1][n] == items[n];
    if before.Some? {
      var p: nat :| p < n && Checked(c, items[..n][p]).Ok? && SizeOf(c.draws[items[..n][p]]) == before.value &&
                    forall q: nat :: q < p ==> Checked(c, items[..n][q]).Err?;
      assert Checked(c, items[..n + 1][p]).Ok?;
    }
  }

  lemma {:induction false} FromStep(c: Capture, items: seq<nat>, n: nat, k: Kept, k': Kept)
    requires n < |items| && InCapture(c, items) && GeometriesFrom(c, items[..n], k.dims, k.geometries)
    requires k.dims == k'.dims || forall p: nat :: p < n ==> Checked(c, items[p]).Err?
    requires k.geometries != k'.geometries ==>
      Usable(c, k'.dims, items[n]) && k'.geometries == k.geometries + [Checked(c, items[n]).value.0]
    ensures GeometriesFrom(c, items[..n + 1], k'.dims, k'.geometries)
  {
    hide Checked;
    assert items[..n + 1][n] == items[n];
    forall g: nat | g < |k'.geometries|
      ensures GeometryFrom(c, items[..n + 1], k'.dims, k'.geometries[g])
    {
      if g < |k.geometries| {
        assert GeometryFrom(c, items[..n], k.dims, k.geometries[g]);
        var p: nat :| p < n && Usable(c, k.dims, items[..n][p]) && k.geometries[g] == Checked(c, items[..n][p]).value.0;
        assert items[..n + 1][p] == items[..n][p];
      }
    }
  }

  // ---------------------------------------------------------------- borrowing

  /** The slot lists hold what the first frame's draws left, each its own. */
  ghost predicate Matched(c: Capture, kept: Kept, slots: map<StableKey, seq<Option<Slot>>>, entries: seq<Option<Slot>>)
    requires InCapture(c, kept.first)
  {
    |entries| == |kept.first| && SlotsAre(slots, Keys(c, kept.first), entries) &&
    forall j: nat :: j < |kept.first| ==> EntryFor(c, kept, kept.first[j], entries[j])
  }

  /** A choice that holds a geometry. */
  predicate Filled(choices: seq<Option<Slot>>, geometries: seq<Geometry>, a: nat) {
    a < |choices| && choices[a].Some? && choices[a].value.geometry < |geometries|
  }

  /** Two choices hold different geometries. */
  predicate Differ(choices: seq<Option<Slot>>, geometries: seq<Geometry>) {
    exists a: nat, b: nat ::
      a < |choices| && b < |choices| && Filled(choices, geometries, a) && Filled(choices, geometries, b) &&
      IdentityOf(geometries[choices[a].value.geometry]) != IdentityOf(geometries[choices[b].value.geometry])
  }

  /** A choice under a key was left by a draw of the first frame that has the key. */
  lemma {:induction false} ChoiceFrom(c: Capture, kept: Kept, slots: map<StableKey, seq<Option<Slot>>>,
      entries: seq<Option<Slot>>, k: StableKey, s: nat)
      returns (j: nat)
    requires InCapture(c, kept.first) && Matched(c, kept, slots, entries) && s < |Want(slots, k)|
    ensures j < |kept.first| && KeyOf(c.draws[kept.first[j]]) == k && Nth(Keys(c, kept.first), j) == s
    ensures entries[j] == Want(slots, k)[s] && EntryFor(c, kept, kept.first[j], entries[j])
  {
    hide EntryFor;
    j := UnderFrom(Keys(c, kept.first), entries, k, s);
  }

  /** A draw of the first frame left the choice at its occurrence under its key. */
  lemma {:induction false} ChoiceOf(c: Capture, kept: Kept, slots: map<StableKey, seq<Option<Slot>>>,
      entries: seq<Option<Slot>>, j: nat)
    requires InCapture(c, kept.first) && Matched(c, kept, slots, entries) && j < |kept.first|
    ensures var keys := Keys(c, kept.first); var choices := Want(slots, keys[j]);
      Nth(keys, j) < |choices| && choices[Nth(keys, j)] == entries[j] && EntryFor(c, kept, kept.first[j], entries[j])
  {
    hide EntryFor;
    UnderAt(Keys(c, kept.first), entries, j);
  }

  lemma {:induction false} DifferIsAmbiguous(c: Capture, kept: Kept, slots: map<StableKey, seq<Option<Slot>>>,
      entries: seq<Option<Slot>>, k: StableKey)
    requires InCapture(c, kept.first) && Matched(c, kept, slots, entries) && Differ(Want(slots, k), kept.geometries)
    ensures Ambiguous(c, kept, k)
  {
    hide Matched, Checked, IdentityOf, Nth, KeyOf, Want;
    var choices, geometries := Want(slots, k), kept.geometries;
    var a: nat, b: nat :| a < |choices| && b < |choices| && Filled(choices, geometries, a) &&
      Filled(choices, geometries, b) &&
      IdentityOf(geometries[choices[a].value.geometry]) != IdentityOf(geometries[choices[b].value.geometry]);
    var i := ChoiceFrom(c, kept, slots, entries, k, a);
    var j := ChoiceFrom(c, kept, slots, entries, k, b);
    assert UsableUnder(c, kept, k, i) && UsableUnder(c, kept, k, j);
  }

  lemma {:induction false} AmbiguousDiffers(c: Capture, kept: Kept, slots: map<StableKey, seq<Option<Slot>>>,
      entries: seq<Option<Slot>>, k: StableKey)
    requires InCapture(c, kept.first) && Matched(c, kept, slots, entries) && Ambiguous(c, kept, k)
    ensures Differ(Want(slots, k), kept.geometries)
  {
    hide Matched, Checked, IdentityOf, Nth, KeyOf, Want;
    var i: nat, j: nat :| UsableUnder(c, kept, k, i) && UsableUnder(c, kept, k, j) &&
      IdentityAt(c, kept.first[i]) != IdentityAt(c, kept.first[j]);
    ChoiceOf(c, kept, slots, entries, i);
    ChoiceOf(c, kept, slots, entries, j);
    var choices := Want(slots, k);
    assert Filled(choices, kept.geometries, Nth(Keys(c, kept.first), i)) &&
        Filled(choices, kept.geometries, Nth(Keys(c, kept.first), j));
  }

  lemma {:induction false} AmbiguousStays(c: Capture, kept: Kept, resources: seq<Resource>, k: StableKey)
    requires InCapture(c, kept.first)
    ensures Ambiguous(c, kept, k) <==> Ambiguous(c, kept.(resources := resources), k)
  {
    hide Checked, IdentityOf, KeyOf;
    var kept' := kept.(resources := resources);
    assert forall a: nat :: UsableUnder(c, kept, k, a) <==> UsableUnder(c, kept', k, a);
  }

  /** At most one draw of the first frame lends to a later one. */
  lemma {:induction false} LenderIsUnique(c: Capture, kept: Kept, later: seq<nat>, i: nat, j: nat, p: nat)
    requires InCapture(c, kept.first) && InCapture(c, later) && p < |later| && Lends(c, kept, later, i, p) &&
        Lends(c, kept, later, j, p)
    ensures i == j
  {
    NthIsUnique(Keys(c, kept.first), i, j);
  }

  lemma {:induction false} BorrowedVerdict(c: Capture, kept: Kept, resources: seq<Resource>, later: seq<nat>, p: nat,
      j: nat, r: Result<Output, ExportError>)
    requires InCapture(c, kept.first) && InCapture(c, later) && p < |later| &&
      !Ambiguous(c, kept, KeyOf(c.draws[later[p]]))
    requires Lends(c, kept, later, j, p) && BorrowVerdict(c, kept.(resources := resources), kept.first[j], later[p], r)
    ensures LaterVerdict(c, kept.(resources := resources), later, p, r)
  {
    hide BorrowVerdict, Checked, Corresponds, KeyOf, Ambiguous;
    var kept' := kept.(resources := resources);
    AmbiguousStays(c, kept, resources, KeyOf(c.draws[later[p]]));
    assert Lends(c, kept', later, j, p);
    forall i: nat | Lends(c, kept', later, i, p)
      ensures i == j
    {
      LenderIsUnique(c, kept', later, i, j, p);
    }
  }

  /**
   The choice at the occurrence of a later draw is filled exactly when a draw of the first frame lends to it, and is
   that draw's.
   */
  lemma {:induction false} LendersAreChoices(c: Capture, kept: Kept, slots: map<StableKey, seq<Option<Slot>>>,
      entries: seq<Option<Slot>>, later: seq<nat>, p: nat)
    requires InCapture(c, kept.first) && InCapture(c, later) && Matched(c, kept, slots, entries) && p < |later|
    ensures var s, choices := Nth(Keys(c, later), p), Want(slots, KeyOf(c.draws[later[p]]));
      ((s < |choices| && choices[s].Some?) <==> exists j: nat :: Lends(c, kept, later, j, p)) &&
      forall j: nat :: Lends(c, kept, later, j, p) ==>
        j < |kept.first| && s < |choices| && choices[s].Some? &&
        SlotFor(c, kept.geometries, kept.first[j], choices[s].value)
  {
    hide Matched, Checked, IdentityOf, Nth, SlotFor, KeyOf;
    var s, k := Nth(Keys(c, later), p), KeyOf(c.draws[later[p]]);
    var choices := Want(slots, k);
    if s < |choices| && choices[s].Some? {
      var j := ChoiceFrom(c, kept, slots, entries, k, s);
      assert Lends(c, kept, later, j, p);
    }
    forall j: nat | Lends(c, kept, later, j, p)
      ensures s < |choices| && choices[s].Some? && SlotFor(c, kept.geometries, kept.first[j], choices[s].value)
    {
      ChoiceOf(c, kept, slots, entries, j);
    }
  }

  // ---------------------------------------------------------------- what the later frames keep

  /** The first p candidates of a later frame have their verdicts. */
  ghost predicate LaterJudged(c: Capture, kept: Kept, later: seq<nat>, p: nat,
      verdicts: seq<Result<Output, ExportError>>)
    requires InCapture(c, kept.first) && InCapture(c, later) && p <= |later|
  {
    |verdicts| == p && forall q: nat :: q < p ==> LaterVerdict(c, kept, later, q, verdicts[q])
  }

  lemma {:induction false} LaterStart(c: Capture, kept: Kept, later: seq<nat>)
    requires InCapture(c, kept.first) && InCapture(c, later)
    ensures LaterJudged(c, kept, later, 0, []) && Tallied([], [], multiset{}) && Counted(map[], Keys(c, later), 0)
  {
  }

  lemma {:induction false} GrowsReflexive(k: Kept)
    requires |k.resources| <= MAX_RESOURCES
    ensures Grows(k, k)
  {
  }

  lemma {:induction false} GrowsTransitive(a: Kept, b: Kept, c: Kept)
    requires Grows(a, b) && Grows(b, c)
    ensures Grows(a, c)
  {
  }

  lemma {:induction false} MatchedStays(c: Capture, k: Kept, k': Kept, slots: map<StableKey, seq<Option<Slot>>>,
      entries: seq<Option<Slot>>)
    requires InCapture(c, k.first) && k' == k.(resources := k'.resources) && Matched(c, k, slots, entries)
    ensures Matched(c, k', slots, entries)
  {
    hide Usable, SlotFor, SlotsAre;
    assert forall j: nat :: j < |k.first| ==> EntryFor(c, k, k.first[j], entries[j]);
  }

  lemma {:induction false} LaterVerdictStays(c: Capture, k: Kept, k': Kept, later: seq<nat>, p: nat,
      r: Result<Output, ExportError>)
    requires InCapture(c, k.first) && InCapture(c, later) && p < |later| && Grows(k, k') &&
        k' == k.(resources := k'.resources)
    requires LaterVerdict(c, k, later, p, r)
    ensures LaterVerdict(c, k', later, p, r)
  {
    hide Checked, Corresponds, KeyOf, Ambiguous, PayloadOf;
    AmbiguousStays(c, k, k'.resources, KeyOf(c.draws[later[p]]));
    assert forall j: nat :: Lends(c, k, later, j, p) <==> Lends(c, k', later, j, p);
  }

  lemma {:induction false} JudgedLater(c: Capture, k: Kept, k': Kept, later: seq<nat>, p: nat,
      verdicts: seq<Result<Output, ExportError>>, r: Result<Output, ExportError>)
    requires InCapture(c, k.first) && InCapture(c, later) && p < |later| && Grows(k, k') &&
        k' == k.(resources := k'.resources)
    requires LaterJudged(c, k, later, p, verdicts) && LaterVerdict(c, k', later, p, r)
    ensures LaterJudged(c, k', later, p + 1, verdicts + [r])
  {
    hide LaterVerdict;
    forall q: nat | q < p
      ensures LaterVerdict(c, k', later, q, verdicts[q])
    {
      LaterVerdictStays(c, k, k', later, q, verdicts[q]);
    }
  }

  /** How often each key came among the first p. */
  ghost predicate Counted(occurrence: map<StableKey, nat>, keys: seq<StableKey>, p: nat)
    requires p <= |keys|
  {
    forall k :: (if k in occurrence then occurrence[k] else 0) == multiset(keys[..p])[k]
  }

  lemma {:induction false} CountedStep(occurrence: map<StableKey, nat>, keys: seq<StableKey>, p: nat)
    requires p < |keys| && Counted(occurrence, keys, p)
    ensures var nth := if keys[p] in occurrence then occurrence[keys[p]] else 0;
      nth == Nth(keys, p) && Counted(occurrence[keys[p] := nth + 1], keys, p + 1)
  {
    assert keys[..p + 1] == keys[..p] + [keys[p]];
  }

  lemma {:induction false} AmbiguousKeys(c: Capture, kept: Kept, slots: map<StableKey, seq<Option<Slot>>>,
      entries: seq<Option<Slot>>, ambiguous: set<StableKey>)
    requires InCapture(c, kept.first) && Matched(c, kept, slots, entries)
    requires forall k :: k in ambiguous <==> k in slots && Differ(slots[k], kept.geometries)
    ensures forall k :: k in ambiguous <==> Ambiguous(c, kept, k)
  {
    hide Matched, Ambiguous;
    forall k
      ensures k in ambiguous <==> Ambiguous(c, kept, k)
    {
      if k in ambiguous {
        DifferIsAmbiguous(c, kept, slots, entries, k);
      }
      if Ambiguous(c, kept, k) {
        AmbiguousDiffers(c, kept, slots, entries, k);
      }
    }
  }
}
