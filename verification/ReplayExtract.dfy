/**
 `extract` of tools/identity_fusion_capture.py as a whole: the frames it selects, the fixture it builds, and that the
 fixture is what the bounded reader accepts.
 */
module ReplayExtract {
  import opened Prelude
  import opened Bytes
  import Fnv
  import opened ReplayGeometry
  import opened ReplayFixture
  import opened ReplayExport

  // ---------------------------------------------------------------- the selected frames

  /** The candidates of a frame among the first n draws, in order. */
  function ItemsOf(c: Capture, frame: nat, n: nat): (items: seq<nat>)
    requires n <= |c.draws|
    ensures InCapture(c, items)
  {
    if n == 0 then []
    else ItemsOf(c, frame, n - 1) + if Eligible(c.draws[n - 1]) && c.draws[n - 1].frame == frame then [n - 1] else []
  }

  lemma {:induction false} ItemsAre(c: Capture, frame: nat, n: nat, i: nat)
    requires n <= |c.draws|
    ensures i in ItemsOf(c, frame, n) <==> i < n && Eligible(c.draws[i]) && c.draws[i].frame == frame
  {
    if n > 0 {
      ItemsAre(c, frame, n - 1, i);
    }
  }

  function Candidates(c: Capture, frame: nat): (items: seq<nat>)
    ensures InCapture(c, items)
  {
    ItemsOf(c, frame, |c.draws|)
  }

  lemma {:induction false} CandidatesAre(c: Capture, frame: nat, p: nat)
    requires p < |Candidates(c, frame)|
    ensures Eligible(c.draws[Candidates(c, frame)[p]]) && c.draws[Candidates(c, frame)[p]].frame == frame
  {
    ItemsAre(c, frame, |c.draws|, Candidates(c, frame)[p]);
  }

  /**
   In numbers: the draws of the frame with the ordinal, a known shader, one instance and whole triangles, in order.
   */
  lemma {:induction false} CandidatesIff(c: Capture, frame: nat, i: nat)
    ensures i in Candidates(c, frame) <==> i < |c.draws| && Replayable(c.draws[i]) && c.draws[i].frame == frame
    ensures Increasing(Candidates(c, frame))
  {
    ItemsAre(c, frame, |c.draws|, i);
    ItemsIncrease(c, frame, |c.draws|);
  }

  predicate Replayable(d: Draw) {
    d.ordinal == 0xFFFF_FFFE && d.instances == 1 && 0 < d.count <= 131072 && d.count % 3 == 0 &&
    d.vs in {0x7B0DC42D383F694C, 0x8B589D25B2A0ADDC, 0x114AF608F86D9ED8, 0xAACFDCF2FB9AD809, 0x174E8D76363BE337}
  }

  lemma {:induction false} ItemsIncrease(c: Capture, frame: nat, n: nat)
    requires n <= |c.draws|
    ensures Increasing(ItemsOf(c, frame, n))
  {
    hide Eligible;
    if n > 0 {
      ItemsIncrease(c, frame, n - 1);
      var before := ItemsOf(c, frame, n - 1);
      forall p: nat | p < |before|
        ensures before[p] < n - 1
      {
        ItemsAre(c, frame, n - 1, before[p]);
      }
    }
  }

  ghost predicate Increasing(fs: seq<nat>) { forall a: nat, b: nat :: a < b < |fs| ==> fs[a] < fs[b] }

  /** The frame has a candidate among the first n draws. */
  ghost predicate Occupied(c: Capture, frame: nat, n: nat) {
    exists i: nat :: i < n && i < |c.draws| && Eligible(c.draws[i]) && c.draws[i].frame == frame
  }

  /** A frame put in its place among others, once. */
  function Insert(fs: seq<nat>, f: nat): seq<nat> {
    if fs == [] || f < fs[0] then [f] + fs
    else if f == fs[0] then fs
    else [fs[0]] + Insert(fs[1..], f)
  }

  lemma {:induction false} InsertKeeps(fs: seq<nat>, f: nat)
    requires Increasing(fs)
    ensures Increasing(Insert(fs, f)) && forall x :: x in Insert(fs, f) <==> x in fs || x == f
  {
    if fs != [] && f > fs[0] {
      assert forall x :: x in fs <==> x == fs[0] || x in fs[1..];
      InsertKeeps(fs[1..], f);
      forall b: nat | 0 < b < |Insert(fs, f)|
        ensures fs[0] < Insert(fs, f)[b]
      {
        assert Insert(fs, f)[b] in Insert(fs[1..], f);
      }
    }
  }

  /** The frames with candidates, in order. */
  method EligibleFrames(c: Capture) returns (frames: seq<nat>)
    ensures Increasing(frames) && forall f: nat :: f in frames <==> Occupied(c, f, |c.draws|)
  {
    frames := [];
    for n := 0 to |c.draws|
      invariant Increasing(frames) && forall f: nat :: f in frames <==> Occupied(c, f, n)
    {
      OccupiedStep(c, n);
      if Eligible(c.draws[n]) {
        InsertKeeps(frames, c.draws[n].frame);
        frames := Insert(frames, c.draws[n].frame);
      }
    }
  }

  lemma {:induction false} OccupiedStep(c: Capture, n: nat)
    requires n < |c.draws|
    ensures forall f: nat :: Occupied(c, f, n + 1) <==>
      Occupied(c, f, n) || (Eligible(c.draws[n]) && c.draws[n].frame == f)
  {
    forall f: nat
      ensures Occupied(c, f, n + 1) <==> Occupied(c, f, n) || (Eligible(c.draws[n]) && c.draws[n].frame == f)
    {
    }
  }

  /** Consecutive frames from the first that has candidates, each with candidates but no more than the format takes. */
  ghost predicate Selected(c: Capture, selected: seq<nat>) {
    1 <= |selected| <= MAX_FRAMES &&
    (forall f: nat :: f < |selected| ==>
      selected[f] == selected[0] + f && Occupied(c, selected[f], |c.draws|) &&
      |Candidates(c, selected[f])| <= MAX_DRAWS) &&
    forall f: nat :: Occupied(c, f, |c.draws|) ==> selected[0] <= f
  }

  lemma {:induction false} SelectionIsUnique(c: Capture, a: seq<nat>, b: seq<nat>)
    requires Selected(c, a) && Selected(c, b) && |a| == |b|
    ensures a == b
  {
    hide Occupied;
    assert Occupied(c, a[0], |c.draws|) && Occupied(c, b[0], |c.draws|);
  }

  /** The frames to export, or why there are none. */
  method Select(c: Capture, limit: int) returns (r: Result<seq<nat>, ExportError>)
    ensures r.Ok? ==> |r.value| == limit && Selected(c, r.value)
    ensures r.Err? ==> forall selected :: |selected| == limit ==> !Selected(c, selected)
  {
    if !(1 <= limit <= MAX_FRAMES) {
      return Err(BadFrameCount);
    }
    var frames := EligibleFrames(c);
    var n: nat := if |frames| < limit then |frames| else limit;
    var selected := frames[..n];
    SelectionIsForced(c, frames, limit);
    if |selected| != limit {
      return Err(TooFewFrames);
    }
    if exists f: nat :: f < |selected| && selected[f] != selected[0] + f {
      return Err(FramesNotConsecutive);
    }
    if exists f: nat :: f < |selected| && |Candidates(c, selected[f])| > MAX_DRAWS {
      return Err(TooManyDraws);
    }
    assert forall f: nat :: f < |selected| ==> selected[f] in frames;
    forall f: nat | Occupied(c, f, |c.draws|)
      ensures selected[0] <= f
    {
      var i :| 0 <= i < |frames| && frames[i] == f;
    }
    return Ok(selected);
  }

  /** A selection can only be the first of the frames with candidates. */
  lemma {:induction false} SelectionIsForced(c: Capture, frames: seq<nat>, limit: nat)
    requires Increasing(frames) && forall f: nat :: f in frames <==> Occupied(c, f, |c.draws|)
    ensures forall selected :: |selected| == limit && Selected(c, selected) ==>
      limit <= |frames| && selected == frames[..limit]
  {
    forall selected | |selected| == limit && Selected(c, selected)
      ensures limit <= |frames| && selected == frames[..limit]
    {
      hide Occupied;
      assert forall f: nat :: f < limit ==> selected[f] in frames;
      assert selected[0] in frames && forall x :: x in frames ==> selected[0] <= x;
      forall f: nat | f < limit
        ensures f < |frames| && frames[f] == selected[f]
      {
        ForcedAt(frames, selected, f);
      }
      assert limit <= |frames| by {
        ForcedAt(frames, selected, limit - 1);
      }
    }
  }

  lemma {:induction false} ForcedAt(frames: seq<nat>, selected: seq<nat>, f: nat)
    requires Increasing(frames) && f < |selected| &&
      (forall x: nat :: x < |selected| ==> selected[x] in frames && selected[x] == selected[0] + x)
    requires forall x :: x in frames ==> selected[0] <= x
    ensures f < |frames| && frames[f] == selected[f]
  {
    assert selected[f] in frames;
    var at: nat :| at < |frames| && frames[at] == selected[f];
    if f == 0 {
      assert frames[0] in frames;
    } else {
      ForcedAt(frames, selected, f - 1);
    }
  }

  // ---------------------------------------------------------------- the fixture

  /** What is exported, and how many draws of each frame were skipped and why. */
  datatype Export = Export(fixture: Fixture, selected: seq<nat>, skipped: multiset<ExportError>,
      skippedByFrame: seq<multiset<ExportError>>)

  function Total(skips: seq<multiset<ExportError>>): multiset<ExportError> {
    if skips == [] then multiset{} else Total(skips[..|skips| - 1]) + skips[|skips| - 1]
  }

  /** How often a reason was given, frame by frame. */
  function HowOften(skips: seq<multiset<ExportError>>, x: ExportError): nat {
    if skips == [] then 0 else skips[0][x] + HowOften(skips[1..], x)
  }

  lemma {:induction false} HowOftenJoins(a: seq<multiset<ExportError>>, b: seq<multiset<ExportError>>, x: ExportError)
    ensures HowOften(a + b, x) == HowOften(a, x) + HowOften(b, x)
  {
    if a == [] {
      assert a + b == b;
    } else {
      assert (a + b)[1..] == a[1..] + b;
      HowOftenJoins(a[1..], b, x);
    }
  }

  /** The skips of the export are those of its frames together, reason by reason. */
  lemma {:induction false} TotalCounts(skips: seq<multiset<ExportError>>, x: ExportError)
    ensures Total(skips)[x] == HowOften(skips, x)
  {
    if skips != [] {
      var n := |skips| - 1;
      TotalCounts(skips[..n], x);
      HowOftenJoins(skips[..n], [skips[n]], x);
      assert skips[..n] + [skips[n]] == skips;
    }
  }

  /** Some geometry was drawn with the shader. */
  predicate InUse(geometries: seq<Geometry>, family: nat) {
    exists g: nat :: g < |geometries| && geometries[g].shader == family
  }

  /** The families in use, in their order. */
  function Used(families: seq<nat>, geometries: seq<Geometry>): (used: seq<nat>)
    ensures forall x :: x in used <==> x in families && InUse(geometries, x)
    ensures |used| <= |families|
  {
    if families == [] then []
    else if InUse(geometries, families[0]) then [families[0]] + Used(families[1..], geometries)
    else Used(families[1..], geometries)
  }

  /** The families in use keep the order the families have. */
  lemma {:induction false} UsedInOrder(families: seq<nat>, geometries: seq<Geometry>, i: nat, j: nat)
      returns (p: nat, q: nat)
    requires i < j < |Used(families, geometries)|
    ensures p < q < |families| && families[p] == Used(families, geometries)[i] &&
      families[q] == Used(families, geometries)[j]
  {
    var rest := families[1..];
    if !InUse(geometries, families[0]) {
      p, q := UsedInOrder(rest, geometries, i, j);
      p, q := p + 1, q + 1;
    } else if i > 0 {
      p, q := UsedInOrder(rest, geometries, i - 1, j - 1);
      p, q := p + 1, q + 1;
    } else {
      assert Used(rest, geometries)[j - 1] in Used(rest, geometries);
      var x :| 0 <= x < |rest| && rest[x] == Used(rest, geometries)[j - 1];
      p, q := 0, x + 1;
    }
  }

  lemma {:induction false} FamilyInUse(d: Draw, geometries: seq<Geometry>, g: nat)
    requires Eligible(d) && g < |geometries| && geometries[g].shader == d.vs
    ensures d.vs in Used(FAMILIES, geometries)
  {
    assert InUse(geometries, d.vs);
  }

  function IndexOf(xs: seq<nat>, x: nat): (i: nat)
    ensures x in xs ==> i < |xs| && xs[i] == x
  {
    if xs == [] || xs[0] == x then 0 else 1 + IndexOf(xs[1..], x)
  }

  function MeshFor(used: seq<nat>, g: Geometry): Mesh {
    Mesh(IndexOf(used, g.shader), g.indexCount, g.stride, g.layout, g.vb, g.ib)
  }

  const EDVR_OFFSET: nat := 1469598103934665603

  /** The hash that names shaders: FNV-1a from its own start. */
  function EdvrHash(data: seq<byte>): nat { Fnv.From(EDVR_OFFSET, data) }

  /** Its start is not that of the standard hash, whose last digit it lacks. */
  lemma EdvrStart()
    ensures EdvrHash([]) == 1469598103934665603 == Fnv.Hash([]) / 10
  {
  }

  /** The shader's bytecode is there, and is the one its family names. */
  predicate BlobOk(blobs: map<nat, seq<byte>>, verify: bool, family: nat) {
    family in blobs && blobs[family] != [] && (verify ==> EdvrHash(blobs[family]) == family)
  }

  /** The shaders of the families, or the first that is missing or is not what its name says. */
  method LoadShaders(used: seq<nat>, blobs: map<nat, seq<byte>>, verify: bool)
      returns (r: Result<seq<Shader>, ExportError>)
    ensures r.Ok? <==> forall f :: f in used ==> BlobOk(blobs, verify, f)
    ensures r.Ok? ==> |r.value| == |used| && forall i: nat :: i < |used| ==>
      BlobOk(blobs, verify, used[i]) && r.value[i] == Shader(used[i], blobs[used[i]])
  {
    var shaders: seq<Shader> := [];
    for i := 0 to |used|
      invariant |shaders| == i &&
        forall x: nat :: x < i ==> BlobOk(blobs, verify, used[x]) && shaders[x] == Shader(used[x], blobs[used[x]])
    {
      assert used[i] in used;
      if used[i] !in blobs || blobs[used[i]] == [] {
        return Err(MissingShader);
      }
      if verify && EdvrHash(blobs[used[i]]) != used[i] {
        return Err(ShaderHashMismatch);
      }
      shaders := shaders + [Shader(used[i], blobs[used[i]])];
    }
    return Ok(shaders);
  }

  // ---------------------------------------------------------------- what the export says

  /** The frame's draws and skips are those its candidates call for. */
  ghost predicate FirstTold(c: Capture, kept: Kept, draws: seq<Output>, skips: multiset<ExportError>)
    requires InCapture(c, kept.first)
  {
    exists verdicts, entries :: FirstJudged(c, kept, kept.first, verdicts, entries) && Tallied(verdicts, draws, skips)
  }

  ghost predicate LaterTold(c: Capture, kept: Kept, later: seq<nat>, draws: seq<Output>, skips: multiset<ExportError>)
    requires InCapture(c, kept.first) && InCapture(c, later)
  {
    exists verdicts :: LaterJudged(c, kept, later, |later|, verdicts) && Tallied(verdicts, draws, skips)
  }

  ghost predicate FrameTold(c: Capture, kept: Kept, selected: seq<nat>, f: nat, frame: Frame,
      skips: multiset<ExportError>)
    requires InCapture(c, kept.first) && f < |selected|
  {
    frame.original == selected[f] &&
    if f == 0 then FirstTold(c, kept, frame.draws, skips)
    else LaterTold(c, kept, Candidates(c, selected[f]), frame.draws, skips)
  }

  ghost predicate FramesTold(c: Capture, kept: Kept, selected: seq<nat>, frames: seq<Frame>,
      skips: seq<multiset<ExportError>>)
    requires InCapture(c, kept.first)
  {
    |frames| == |skips| <= |selected| &&
    forall f: nat :: f < |frames| ==> FrameTold(c, kept, selected, f, frames[f], skips[f])
  }

  /** What was kept comes from the first frame. */
  ghost predicate KeptFrom(c: Capture, kept: Kept)
    requires InCapture(c, kept.first)
  {
    FirstSized(c, kept.first, kept.dims) && GeometriesFrom(c, kept.first, kept.dims, kept.geometries) &&
    |kept.geometries| <= |kept.first| &&
    |kept.resources| <= MAX_RESOURCES && forall i: nat :: i < |kept.resources| ==> ResourceSound(kept.resources[i])
  }

  /** The fixture is made of what was kept. */
  ghost predicate MadeOf(f: Fixture, kept: Kept) {
    var used := Used(FAMILIES, kept.geometries);
    kept.geometries != [] && kept.dims == Some((f.width, f.height)) && f.resources == kept.resources &&
    |f.meshes| == |kept.geometries| &&
    (forall g: nat :: g < |f.meshes| ==> f.meshes[g] == MeshFor(used, kept.geometries[g])) &&
    |f.shaders| == |used| && forall s: nat :: s < |used| ==> f.shaders[s].hash == used[s] && f.shaders[s].data != []
  }

  ghost predicate Explained(c: Capture, e: Export, kept: Kept) {
    Selected(c, e.selected) && kept.first == Candidates(c, e.selected[0]) && KeptFrom(c, kept) &&
    MadeOf(e.fixture, kept) &&
    |e.fixture.frames| == |e.selected| && FramesTold(c, kept, e.selected, e.fixture.frames, e.skippedByFrame) &&
    e.skipped == Total(e.skippedByFrame)
  }

  // ---------------------------------------------------------------- when there is an export

  /**
   Some draw of the first frame passes its checks and sets the size; the shaders of all that agree with it are there.
   */
  ghost predicate Providing(c: Capture, blobs: map<nat, seq<byte>>, verify: bool, first: seq<nat>, size: (nat, nat))
    requires InCapture(c, first)
  {
    FirstSized(c, first, Some(size)) &&
    forall p: nat :: p < |first| && Usable(c, Some(size), first[p]) ==> BlobOk(blobs, verify, c.draws[first[p]].vs)
  }

  /** There are frames to export, and their first provides what it takes. */
  ghost predicate Exportable(c: Capture, blobs: map<nat, seq<byte>>, limit: int, verify: bool) {
    exists selected: seq<nat>, size: (nat, nat) ::
      |selected| == limit && Selected(c, selected) && Providing(c, blobs, verify, Candidates(c, selected[0]), size)
  }

  lemma {:induction false} SizeIsUnique(c: Capture, items: seq<nat>, a: Option<(nat, nat)>, b: Option<(nat, nat)>)
    requires InCapture(c, items) && FirstSized(c, items, a) && FirstSized(c, items, b)
    ensures a == b
  {
    hide Checked, SizeOf;
  }

  /** The family is that of a usable draw of the first frame. */
  ghost predicate Drawn(c: Capture, kept: Kept, family: nat)
    requires InCapture(c, kept.first)
  {
    exists p: nat :: p < |kept.first| && Usable(c, kept.dims, kept.first[p]) && c.draws[kept.first[p]].vs == family
  }

  lemma {:induction false} ShaderAt(c: Capture, i: nat)
    requires i < |c.draws| && Checked(c, i).Ok?
    ensures Checked(c, i).value.0.shader == c.draws[i].vs && IdentityAt(c, i).source.stable.vs == c.draws[i].vs
  {
    hide Checked, Normalize;
    CheckedNormalizes(c, i);
    NormalFields(c.draws[i]);
  }

  /** The families in use are those of the usable draws. */
  lemma {:induction false} InUseIsDrawn(c: Capture, kept: Kept, entries: seq<Option<Slot>>, family: nat)
    requires InCapture(c, kept.first) && GeometriesFrom(c, kept.first, kept.dims, kept.geometries)
    requires |entries| == |kept.first| &&
      forall p: nat :: p < |kept.first| ==> EntryFor(c, kept, kept.first[p], entries[p])
    ensures InUse(kept.geometries, family) <==> Drawn(c, kept, family)
  {
    hide Checked, IdentityOf;
    if InUse(kept.geometries, family) {
      var g: nat :| g < |kept.geometries| && kept.geometries[g].shader == family;
      UsedIsDrawn(c, kept, g);
    }
    if Drawn(c, kept, family) {
      var p: nat :| p < |kept.first| && Usable(c, kept.dims, kept.first[p]) && c.draws[kept.first[p]].vs == family;
      var g := entries[p].value.geometry;
      SlotInUse(c, kept, kept.first[p], entries[p].value);
    }
  }

  lemma {:induction false} UsedIsDrawn(c: Capture, kept: Kept, g: nat)
    requires InCapture(c, kept.first) && GeometriesFrom(c, kept.first, kept.dims, kept.geometries)
    requires g < |kept.geometries|
    ensures Drawn(c, kept, kept.geometries[g].shader)
    ensures kept.geometries[g].source.stable.vs == kept.geometries[g].shader
  {
    hide Checked;
    assert GeometryFrom(c, kept.first, kept.dims, kept.geometries[g]);
    var p: nat :| p < |kept.first| && Usable(c, kept.dims, kept.first[p]) &&
                  kept.geometries[g] == Checked(c, kept.first[p]).value.0;
    ShaderAt(c, kept.first[p]);
  }

  lemma {:induction false} SlotInUse(c: Capture, kept: Kept, i: nat, slot: Slot)
    requires InCapture(c, kept.first) && GeometriesFrom(c, kept.first, kept.dims, kept.geometries)
    requires i < |c.draws| && SlotFor(c, kept.geometries, i, slot)
    ensures InUse(kept.geometries, c.draws[i].vs)
  {
    hide Checked;
    UsedIsDrawn(c, kept, slot.geometry);
    ShaderAt(c, i);
  }

  /** What was kept provides for an export exactly when the first frame does. */
  lemma {:induction false} KeptProvides(c: Capture, blobs: map<nat, seq<byte>>, verify: bool, frame: nat, kept: Kept,
      entries: seq<Option<Slot>>)
    requires kept.first == Candidates(c, frame) && KeptFrom(c, kept)
    requires |entries| == |kept.first| &&
      forall p: nat :: p < |kept.first| ==> EntryFor(c, kept, kept.first[p], entries[p])
    ensures (exists size :: Providing(c, blobs, verify, kept.first, size)) <==>
      kept.geometries != [] && kept.dims.Some? &&
      forall f :: f in Used(FAMILIES, kept.geometries) ==> BlobOk(blobs, verify, f)
  {
    hide Checked, Candidates, EntryFor, BlobOk, FAMILIES, FirstSized, IdentityOf;
    if size :| Providing(c, blobs, verify, kept.first, size) {
      SizeIsUnique(c, kept.first, kept.dims, Some(size));
      SomeIsUsable(c, kept, entries);
      forall f | f in Used(FAMILIES, kept.geometries)
        ensures BlobOk(blobs, verify, f)
      {
        InUseIsDrawn(c, kept, entries, f);
      }
    }
    if kept.geometries != [] && kept.dims.Some? &&
      forall f :: f in Used(FAMILIES, kept.geometries) ==> BlobOk(blobs, verify, f) {
      forall p: nat | p < |kept.first| && Usable(c, kept.dims, kept.first[p])
        ensures BlobOk(blobs, verify, c.draws[kept.first[p]].vs)
      {
        InUseIsDrawn(c, kept, entries, c.draws[kept.first[p]].vs);
        CandidatesAre(c, frame, p);
      }
      assert Providing(c, blobs, verify, kept.first, kept.dims.value);
    }
  }

  lemma {:induction false} SomeIsUsable(c: Capture, kept: Kept, entries: seq<Option<Slot>>)
    requires InCapture(c, kept.first) && FirstSized(c, kept.first, kept.dims) && kept.dims.Some?
    requires |entries| == |kept.first| &&
      forall p: nat :: p < |kept.first| ==> EntryFor(c, kept, kept.first[p], entries[p])
    ensures kept.geometries != []
  {
    hide Checked, IdentityOf, SizeOf;
    var p: nat :| p < |kept.first| && Checked(c, kept.first[p]).Ok? &&
      SizeOf(c.draws[kept.first[p]]) == kept.dims.value;
    assert Usable(c, kept.dims, kept.first[p]);
  }

  /** The slots left by the first frame, of which its output tells. */
  lemma {:induction false} EntriesOf(c: Capture, kept: Kept, selected: seq<nat>, frames: seq<Frame>,
      skips: seq<multiset<ExportError>>)
      returns (entries: seq<Option<Slot>>)
    requires InCapture(c, kept.first) && frames != [] && FramesTold(c, kept, selected, frames, skips)
    ensures |entries| == |kept.first| &&
      forall p: nat :: p < |kept.first| ==> EntryFor(c, kept, kept.first[p], entries[p])
  {
    hide FirstVerdict, EntryFor, LaterTold;
    assert FrameTold(c, kept, selected, 0, frames[0], skips[0]);
    var verdicts, found :| FirstJudged(c, kept, kept.first, verdicts, found) &&
      Tallied(verdicts, frames[0].draws, skips[0]);
    entries := found;
  }

  /** The frames selected decide whether there is an export. */
  lemma {:induction false} ExportableFrom(c: Capture, blobs: map<nat, seq<byte>>, limit: int, verify: bool,
      selected: seq<nat>)
    requires |selected| == limit && Selected(c, selected)
    ensures Exportable(c, blobs, limit, verify) <==>
      exists size :: Providing(c, blobs, verify, Candidates(c, selected[0]), size)
  {
    hide Occupied, Providing, Candidates;
    if Exportable(c, blobs, limit, verify) {
      var other: seq<nat>, size: (nat, nat) :| |other| == limit && Selected(c, other) &&
        Providing(c, blobs, verify, Candidates(c, other[0]), size);
      SelectionIsUnique(c, selected, other);
    }
  }

  // ---------------------------------------------------------------- extraction

  lemma {:induction false} FrameToldStays(c: Capture, k: Kept, k': Kept, selected: seq<nat>, f: nat, frame: Frame,
      skips: multiset<ExportError>)
    requires InCapture(c, k.first) && f < |selected| && Grows(k, k') && k' == k.(resources := k'.resources)
    requires FrameTold(c, k, selected, f, frame, skips)
    ensures FrameTold(c, k', selected, f, frame, skips)
  {
    hide FirstVerdict, EntryFor, LaterVerdict;
    if f == 0 {
      var verdicts, entries :| FirstJudged(c, k, k.first, verdicts, entries) && Tallied(verdicts, frame.draws, skips);
      forall p: nat | p < |k.first|
        ensures FirstVerdict(c, k', k.first[p], verdicts[p]) && EntryFor(c, k', k.first[p], entries[p])
      {
        VerdictStays(c, k, k', k.first[p], verdicts[p], entries[p]);
      }
      assert FirstJudged(c, k', k'.first, verdicts, entries);
    } else {
      var later := Candidates(c, selected[f]);
      var verdicts :| LaterJudged(c, k, later, |later|, verdicts) && Tallied(verdicts, frame.draws, skips);
      forall p: nat | p < |later|
        ensures LaterVerdict(c, k', later, p, verdicts[p])
      {
        LaterVerdictStays(c, k, k', later, p, verdicts[p]);
      }
      assert LaterJudged(c, k', later, |later|, verdicts);
    }
  }

  lemma {:induction false} FramesStep(c: Capture, k: Kept, k': Kept, selected: seq<nat>, frames: seq<Frame>,
      skips: seq<multiset<ExportError>>, frame: Frame, skip: multiset<ExportError>)
    requires InCapture(c, k.first) && Grows(k, k') && k' == k.(resources := k'.resources)
    requires |frames| < |selected| && FramesTold(c, k, selected, frames, skips) &&
        FrameTold(c, k', selected, |frames|, frame, skip)
    ensures FramesTold(c, k', selected, frames + [frame], skips + [skip])
  {
    hide FrameTold;
    forall f: nat | f < |frames|
      ensures FrameTold(c, k', selected, f, frames[f], skips[f])
    {
      FrameToldStays(c, k, k', selected, f, frames[f], skips[f]);
    }
  }

  /** The first frame: its output, and what the exporter keeps of it. */
  method ExtractFirst(e: Exporter, selected: seq<nat>)
      returns (frame: Frame, skips: multiset<ExportError>, ghost entries: seq<Option<Slot>>)
    requires e.Valid() && selected != [] && |Candidates(e.capture, selected[0])| <= MAX_DRAWS
    requires e.geometries == [] && e.slots == map[] && e.dimensions == None
    modifies e
    ensures e.Valid() && FrameTold(e.capture, e.State(Candidates(e.capture, selected[0])), selected, 0, frame, skips)
    ensures KeptFrom(e.capture, e.State(Candidates(e.capture, selected[0])))
    ensures Matched(e.capture, e.State(Candidates(e.capture, selected[0])), e.slots, entries)
  {
    hide FirstVerdict, EntryFor, Selected, SlotsAre, FirstSized, GeometriesFrom, GeometryFrom, Candidates;
    var items := Candidates(e.capture, selected[0]);
    var draws, s, verdicts, left := e.FirstFrame(items);
    assert items[..|items|] == items;
    entries := left;
    return Frame(selected[0], draws), s, left;
  }

  /** The selected frames in turn. */
  method ExtractFrames(c: Capture, selected: seq<nat>)
      returns (e: Exporter, frames: seq<Frame>, skips: seq<multiset<ExportError>>)
    requires Selected(c, selected)
    ensures fresh(e) && e.Valid() && e.capture == c && |frames| == |selected|
    ensures FramesTold(c, e.State(Candidates(c, selected[0])), selected, frames, skips) &&
        KeptFrom(c, e.State(Candidates(c, selected[0])))
  {
    hide FrameTold, Candidates, Matched, FirstSized, GeometriesFrom;
    e := new Exporter(c);
    var frame, skip, entries := ExtractFirst(e, selected);
    ghost var first := Candidates(c, selected[0]);
    frames, skips := [frame], [skip];
    for f := 1 to |selected|
      invariant e.Valid() && e.capture == c && |frames| == f && FramesTold(c, e.State(first), selected, frames, skips)
      invariant KeptFrom(c, e.State(first)) && Matched(c, e.State(first), e.slots, entries)
    {
      ghost var before := e.State(first);
      var later := Candidates(c, selected[f]);
      var draws, s, verdicts := e.LaterFrame(first, later, entries);
      var next := Frame(selected[f], draws);
      LaterIsTold(c, e.State(first), selected, f, next, s, verdicts);
      FramesStep(c, before, e.State(first), selected, frames, skips, next, s);
      MatchedStays(c, before, e.State(first), e.slots, entries);
      frames, skips := frames + [next], skips + [s];
    }
  }

  lemma {:induction false} LaterIsTold(c: Capture, kept: Kept, selected: seq<nat>, f: nat, frame: Frame,
      skips: multiset<ExportError>, verdicts: seq<Result<Output, ExportError>>)
    requires InCapture(c, kept.first) && 0 < f < |selected| && frame.original == selected[f]
    requires var later := Candidates(c, selected[f]);
      LaterJudged(c, kept, later, |later|, verdicts) && Tallied(verdicts, frame.draws, skips)
    ensures FrameTold(c, kept, selected, f, frame, skips)
  {
  }

  /** extract: the fixture and its coverage, or why there is none. */
  method Extract(c: Capture, blobs: map<nat, seq<byte>>, limit: int, verify: bool)
      returns (r: Result<Export, ExportError>, ghost kept: Kept)
    ensures r.Ok? <==> Exportable(c, blobs, limit, verify)
    ensures r.Ok? ==> |r.value.selected| == limit && Explained(c, r.value, kept)
    ensures r.Ok? ==> forall s :: s in r.value.fixture.shaders ==>
      s.hash in blobs && s.data == blobs[s.hash] && (verify ==> EdvrHash(s.data) == s.hash)
  {
    hide Selected, FramesTold, KeptFrom, Candidates, Providing, EntryFor, FAMILIES;
    kept := Kept([], None, [], []);
    var selection := Select(c, limit);
    if selection.Err? {
      return Err(selection.error), kept;
    }
    var selected := selection.value;
    var e, frames, skips := ExtractFrames(c, selected);
    kept := e.State(Candidates(c, selected[0]));
    ExportableFrom(c, blobs, limit, verify, selected);
    ghost var entries := EntriesOf(c, kept, selected, frames, skips);
    KeptProvides(c, blobs, verify, selected[0], kept, entries);
    if e.geometries == [] || e.dimensions.None? {
      return Err(NoGeometry), kept;
    }
    var used := Used(FAMILIES, e.geometries);
    var shaders := LoadShaders(used, blobs, verify);
    if shaders.Err? {
      return Err(shaders.error), kept;
    }
    var meshes := Map(e.geometries, g => MeshFor(used, g));
    var fixture := Fixture(e.dimensions.value.0, e.dimensions.value.1, shaders.value, meshes, e.resources, frames);
    assert MadeOf(fixture, kept);
    return Ok(Export(fixture, selected, Total(skips), skips)), kept;
  }
}
