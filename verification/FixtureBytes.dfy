/**
 Where the numbers and the buffers of a replay fixture file lie: byte offsets as tools/identity_fusion_capture.py has
 them, whatever the reader and the writer of ReplayFixture share. All numbers are little-endian.
 */
module FixtureBytes {
  import opened Prelude
  import opened Bytes
  import opened Parsing
  import opened ReplayGeometry
  import opened ReplayFixture

  // ---------------------------------------------------------------- the offsets of each record

  /** A length and that many bytes. */
  ghost predicate BlobAt(data: seq<byte>, p: nat, b: seq<byte>) {
    HoldsAt(data, p, 4, |b|) && Lies(data, p + 4, b)
  }

  ghost predicate HeaderAt(data: seq<byte>, f: Fixture) {
    |data| >= 36 && data[..8] == [0x45, 0x44, 0x56, 0x52, 0x49, 0x46, 0x52, 0x31] &&
    HoldsAt(data, 8, 4, 1) && HoldsAt(data, 12, 4, f.width) && HoldsAt(data, 16, 4, f.height) &&
    HoldsAt(data, 20, 4, |f.frames|) && HoldsAt(data, 24, 4, |f.shaders|) && HoldsAt(data, 28, 4, |f.meshes|) &&
    HoldsAt(data, 32, 4, |f.resources|)
  }

  function ShaderSize(s: Shader): nat { 12 + |s.data| }

  ghost predicate ShaderAt(data: seq<byte>, p: nat, s: Shader) {
    HoldsAt(data, p, 8, s.hash) && BlobAt(data, p + 8, s.data)
  }

  function ResourceSize(r: Resource): nat { 8 + |r.data| }

  ghost predicate ResourceAt(data: seq<byte>, p: nat, r: Resource) {
    HoldsAt(data, p, 4, r.stride) && BlobAt(data, p + 4, r.data)
  }

  function ElementSize(e: Element): nat { 28 + |e.semantic| }

  /** The semantic's letters, and after them six numbers. */
  ghost predicate ElementAt(data: seq<byte>, p: nat, e: Element) {
    BlobAt(data, p, Ascii(e.semantic)) && NumbersAt(data, p + 4 + |e.semantic|, e)
  }

  ghost predicate NumbersAt(data: seq<byte>, p: nat, e: Element) {
    HoldsAt(data, p, 4, e.index) && HoldsAt(data, p + 4, 4, e.format) && HoldsAt(data, p + 8, 4, e.slot) &&
    HoldsAt(data, p + 12, 4, e.offset) && HoldsAt(data, p + 16, 4, e.classification) && HoldsAt(data, p + 20, 4, e.step)
  }

  function LayoutSize(m: Mesh): nat { Sum(m.layout, ElementSize) }

  function MeshSize(m: Mesh): nat { 24 + LayoutSize(m) + |m.vb| + |m.ib| }

  ghost predicate MeshAt(data: seq<byte>, p: nat, m: Mesh) {
    HoldsAt(data, p, 4, m.shader) && HoldsAt(data, p + 4, 4, m.count) && HoldsAt(data, p + 8, 4, m.stride) &&
    HoldsAt(data, p + 12, 4, |m.layout|) && Run(data, p + 16, m.layout, ElementSize, ElementAt) &&
    BlobAt(data, p + 16 + LayoutSize(m), m.vb) && BlobAt(data, p + 20 + LayoutSize(m) + |m.vb|, m.ib)
  }

  function OutputSize(o: Output): nat { 32 + |o.cb1| + |o.cb2| }

  ghost predicate OutputAt(data: seq<byte>, p: nat, o: Output) {
    HoldsAt(data, p, 4, o.geometry) && HoldsAt(data, p + 4, 4, o.pool) && HoldsAt(data, p + 8, 4, o.bones) &&
    HoldsAt(data, p + 12, 4, o.original) && |o.instance| == 8 && Lies(data, p + 16, o.instance) &&
    BlobAt(data, p + 24, o.cb1) && BlobAt(data, p + 28 + |o.cb1|, o.cb2)
  }

  function FrameSize(f: Frame): nat { 8 + Sum(f.draws, OutputSize) }

  ghost predicate FrameAt(data: seq<byte>, p: nat, f: Frame) {
    HoldsAt(data, p, 4, f.original) && HoldsAt(data, p + 4, 4, |f.draws|) &&
    Run(data, p + 8, f.draws, OutputSize, OutputAt)
  }

  function Sum<A>(xs: seq<A>, size: A -> nat): nat {
    if xs == [] then 0 else size(xs[0]) + Sum(xs[1..], size)
  }

  /** One item after another from p on. */
  ghost predicate Run<A>(data: seq<byte>, p: nat, xs: seq<A>, size: A -> nat, at: (seq<byte>, nat, A) -> bool)
    decreases xs
  {
    xs == [] || (at(data, p, xs[0]) && Run(data, p + size(xs[0]), xs[1..], size, at))
  }

  // ---------------------------------------------------------------- where the sections start

  function ResourcesStart(f: Fixture): nat { 36 + Sum(f.shaders, ShaderSize) }

  function MeshesStart(f: Fixture): nat { ResourcesStart(f) + Sum(f.resources, ResourceSize) }

  function FramesStart(f: Fixture): nat { MeshesStart(f) + Sum(f.meshes, MeshSize) }

  function FileSize(f: Fixture): nat { FramesStart(f) + Sum(f.frames, FrameSize) }

  /** The header, the shaders, the resources, the geometries, the frames, and nothing else. */
  ghost predicate FixtureAt(data: seq<byte>, f: Fixture) {
    HeaderAt(data, f) && Run(data, 36, f.shaders, ShaderSize, ShaderAt) &&
    Run(data, ResourcesStart(f), f.resources, ResourceSize, ResourceAt) &&
    Run(data, MeshesStart(f), f.meshes, MeshSize, MeshAt) && Run(data, FramesStart(f), f.frames, FrameSize, FrameAt) &&
    |data| == FileSize(f)
  }

  // ---------------------------------------------------------------- records

  /** The record of x, written by c, is as long as size says and has its parts where at says. */
  ghost predicate Placed<A, T>(c: Layout<T>, x: A, f: A -> T, size: A -> nat, at: (seq<byte>, nat, A) -> bool) {
    |c.write(f(x))| == size(x) && forall data, p: nat :: Lies(data, p, c.write(f(x))) ==> at(data, p, x)
  }

  lemma {:induction false} RunLies<A, T>(data: seq<byte>, p: nat, c: Layout<T>, xs: seq<A>, f: A -> T, size: A -> nat,
      at: (seq<byte>, nat, A) -> bool)
    requires Lies(data, p, WriteMany(c, Map(xs, f))) && forall x :: x in xs ==> Placed(c, x, f, size, at)
    ensures Run(data, p, xs, size, at) && |WriteMany(c, Map(xs, f))| == Sum(xs, size)
    decreases xs
  {
    hide Lies;
    if xs != [] {
      assert Map(xs, f)[1..] == Map(xs[1..], f);
      LiesSplit(data, p, c.write(f(xs[0])), WriteMany(c, Map(xs[1..], f)));
      assert Placed(c, xs[0], f, size, at);
      RunLies(data, p + size(xs[0]), c, xs[1..], f, size, at);
    }
  }

  lemma {:induction false} BlobLies(data: seq<byte>, p: nat, b: seq<byte>)
    requires Lies(data, p, PackAll([4], [|b|]) + b) && |b| <= MAX_COUNT
    ensures BlobAt(data, p, b) && |PackAll([4], [|b|]) + b| == 4 + |b|
  {
    hide PackAll, Lies, HoldsAt;
    LiesSplit(data, p, PackAll([4], [|b|]), b);
    NumberLies(data, p, |b|);
  }

  lemma {:induction false} LongLies(data: seq<byte>, p: nat, v: nat)
    requires Lies(data, p, PackAll([8], [v])) && Fits([8], [v])
    ensures HoldsAt(data, p, 8, v) && |PackAll([8], [v])| == 8
  {
    hide PackAll, Lies, HoldsAt, Span;
    RecordLies(data, p, [8], [v]);
    Steps([8]);
    assert FieldStart([8], 1) == 8;
  }

  /** n numbers of 4 bytes. */
  lemma {:induction false} NumbersLie(data: seq<byte>, p: nat, n: nat, words: seq<nat>)
    requires Lies(data, p, PackAll(Of(n, 4), words)) && Fits(Of(n, 4), words)
    ensures |words| == n && |PackAll(Of(n, 4), words)| == 4 * n
    ensures forall j: nat :: j < n ==> HoldsAt(data, p + 4 * j, 4, words[j])
  {
    hide PackAll, Lies, HoldsAt, Span, Size, FieldStart;
    RecordLies(data, p, Of(n, 4), words);
    SameFieldsAt(data, p, n, 4, words);
  }

  lemma {:induction false} ShaderLies(data: seq<byte>, p: nat, s: Shader)
    requires Lies(data, p, Shaders().write(ShaderItemOf(s))) && ShaderWritable(s)
    ensures ShaderAt(data, p, s) && |Shaders().write(ShaderItemOf(s))| == ShaderSize(s)
  {
    hide PackAll, Lies, HoldsAt, BlobAt, Fits;
    var head, blob := PackAll([8], [s.hash]), PackAll([4], [|s.data|]) + s.data;
    LiesSplit(data, p, head, blob);
    LongLies(data, p, s.hash);
    BlobLies(data, p + 8, s.data);
  }

  lemma {:induction false} ResourceLies(data: seq<byte>, p: nat, r: Resource)
    requires Lies(data, p, Resources().write(ResourceItemOf(r))) && ResourceWritable(r)
    ensures ResourceAt(data, p, r) && |Resources().write(ResourceItemOf(r))| == ResourceSize(r)
  {
    hide PackAll, Lies, HoldsAt, BlobAt, Fits;
    var head, blob := PackAll([4], [r.stride]), PackAll([4], [|r.data|]) + r.data;
    LiesSplit(data, p, head, blob);
    OneFits(r.stride);
    NumberLies(data, p, r.stride);
    BlobLies(data, p + 4, r.data);
  }

  lemma OneFits(v: nat)
    requires Fits([4], [v])
    ensures v <= MAX_COUNT
  {
    SpanOfFour();
    assert [v][0] < Span(4);
  }

  lemma {:induction false} ElementLies(data: seq<byte>, p: nat, e: Element)
    requires Lies(data, p, Elements().write(ElementItemOf(e))) && ElementWritable(e)
    ensures ElementAt(data, p, e) && |Elements().write(ElementItemOf(e))| == ElementSize(e)
  {
    hide PackAll, Lies, HoldsAt, BlobAt, Fits;
    var name, words := Ascii(e.semantic), ElementItemOf(e).1;
    var blob := PackAll([4], [|name|]) + name;
    assert U32x6 == Of(6, 4);
    LiesSplit(data, p, blob, PackAll(U32x6, words));
    BlobLies(data, p, name);
    NumbersLie(data, p + 4 + |name|, 6, words);
    SixNumbers(data, p + 4 + |name|, words);
  }

  lemma SixNumbers(data: seq<byte>, p: nat, words: seq<nat>)
    requires |words| == 6 && forall j: nat :: j < 6 ==> HoldsAt(data, p + 4 * j, 4, words[j])
    ensures HoldsAt(data, p, 4, words[0]) && HoldsAt(data, p + 4, 4, words[1]) && HoldsAt(data, p + 8, 4, words[2])
    ensures HoldsAt(data, p + 12, 4, words[3]) && HoldsAt(data, p + 16, 4, words[4])
    ensures HoldsAt(data, p + 20, 4, words[5])
  {
    hide HoldsAt;
    assert HoldsAt(data, p + 4 * 0, 4, words[0]) && HoldsAt(data, p + 4 * 1, 4, words[1]) &&
           HoldsAt(data, p + 4 * 2, 4, words[2]) && HoldsAt(data, p + 4 * 3, 4, words[3]) &&
           HoldsAt(data, p + 4 * 4, 4, words[4]) && HoldsAt(data, p + 4 * 5, 4, words[5]);
  }

  lemma {:induction false} FourLie(data: seq<byte>, p: nat, words: seq<nat>)
    requires Lies(data, p, PackAll(U32x4, words)) && Fits(U32x4, words)
    ensures |words| == 4 && |PackAll(U32x4, words)| == 16
    ensures HoldsAt(data, p, 4, words[0]) && HoldsAt(data, p + 4, 4, words[1])
    ensures HoldsAt(data, p + 8, 4, words[2]) && HoldsAt(data, p + 12, 4, words[3])
  {
    hide PackAll, Lies, HoldsAt, Fits;
    assert U32x4 == Of(4, 4);
    NumbersLie(data, p, 4, words);
    assert HoldsAt(data, p + 4 * 0, 4, words[0]) && HoldsAt(data, p + 4 * 1, 4, words[1]) &&
           HoldsAt(data, p + 4 * 2, 4, words[2]) && HoldsAt(data, p + 4 * 3, 4, words[3]);
  }

  lemma {:induction false} ElementIsPlaced(e: Element)
    requires ElementWritable(e)
    ensures Placed(Elements(), e, ElementItemOf, ElementSize, ElementAt)
  {
    hide Lies, Elements, ElementAt, ElementSize, ElementWritable;
    var bytes := Elements().write(ElementItemOf(e));
    LiesItself(bytes);
    ElementLies(bytes, 0, e);
    forall data, p: nat | Lies(data, p, bytes)
      ensures ElementAt(data, p, e)
    {
      ElementLies(data, p, e);
    }
  }

  lemma MeshPieces(shaders: nat, m: Mesh)
    ensures Meshes(shaders).write(MeshItemOf(m)) == PackAll(U32x4, MeshItemOf(m).0) +
      (WriteMany(Elements(), Map(m.layout, ElementItemOf)) + (PackAll([4], [|m.vb|]) + m.vb +
        (PackAll([4], [|m.ib|]) + m.ib)))
  {
    hide PackAll, WriteMany, Elements;
  }

  lemma {:induction false} MeshLies(data: seq<byte>, p: nat, m: Mesh, shaders: nat)
    requires Lies(data, p, Meshes(shaders).write(MeshItemOf(m))) && MeshWritable(m)
    ensures MeshAt(data, p, m) && |Meshes(shaders).write(MeshItemOf(m))| == MeshSize(m)
  {
    hide PackAll, Lies, HoldsAt, BlobAt, Fits, Run, Elements, ElementWritable, Meshes, WriteMany, Placed, Sum;
    var layout := WriteMany(Elements(), Map(m.layout, ElementItemOf));
    var vb, ib := PackAll([4], [|m.vb|]) + m.vb, PackAll([4], [|m.ib|]) + m.ib;
    MeshPieces(shaders, m);
    LiesSplit(data, p, PackAll(U32x4, MeshItemOf(m).0), layout + (vb + ib));
    FourLie(data, p, MeshItemOf(m).0);
    LiesSplit(data, p + 16, layout, vb + ib);
    forall e | e in m.layout
      ensures Placed(Elements(), e, ElementItemOf, ElementSize, ElementAt)
    {
      ElementIsPlaced(e);
    }
    RunLies(data, p + 16, Elements(), m.layout, ElementItemOf, ElementSize, ElementAt);
    LiesSplit(data, p + 16 + LayoutSize(m), vb, ib);
    BlobLies(data, p + 16 + LayoutSize(m), m.vb);
    BlobLies(data, p + 20 + LayoutSize(m) + |m.vb|, m.ib);
  }

  lemma OutputPieces(geometries: nat, resources: nat, o: Output)
    ensures Outputs(geometries, resources).write(OutputItemOf(o)) == PackAll(U32x4, OutputItemOf(o).0) +
      (o.instance + (PackAll([4], [|o.cb1|]) + o.cb1 + (PackAll([4], [|o.cb2|]) + o.cb2)))
  {
    hide PackAll;
  }

  lemma {:induction false} OutputLies(data: seq<byte>, p: nat, o: Output, geometries: nat, resources: nat)
    requires Lies(data, p, Outputs(geometries, resources).write(OutputItemOf(o))) && OutputWritable(o)
    ensures OutputAt(data, p, o) && |Outputs(geometries, resources).write(OutputItemOf(o))| == OutputSize(o)
  {
    hide PackAll, Lies, HoldsAt, BlobAt, Fits, Outputs;
    var cb1, cb2 := PackAll([4], [|o.cb1|]) + o.cb1, PackAll([4], [|o.cb2|]) + o.cb2;
    OutputPieces(geometries, resources, o);
    LiesSplit(data, p, PackAll(U32x4, OutputItemOf(o).0), o.instance + (cb1 + cb2));
    FourLie(data, p, OutputItemOf(o).0);
    LiesSplit(data, p + 16, o.instance, cb1 + cb2);
    LiesSplit(data, p + 24, cb1, cb2);
    BlobLies(data, p + 24, o.cb1);
    BlobLies(data, p + 28 + |o.cb1|, o.cb2);
  }

  lemma {:induction false} OutputIsPlaced(o: Output, geometries: nat, resources: nat)
    requires OutputWritable(o)
    ensures Placed(Outputs(geometries, resources), o, OutputItemOf, OutputSize, OutputAt)
  {
    hide Lies, Outputs, OutputAt, OutputSize, OutputWritable;
    var bytes := Outputs(geometries, resources).write(OutputItemOf(o));
    LiesItself(bytes);
    OutputLies(bytes, 0, o, geometries, resources);
    forall data, p: nat | Lies(data, p, bytes)
      ensures OutputAt(data, p, o)
    {
      OutputLies(data, p, o, geometries, resources);
    }
  }

  lemma FramePieces(geometries: nat, resources: nat, f: Frame)
    ensures Frames(geometries, resources).write(FrameItemOf(f)) == PackAll(U32x2, FrameItemOf(f).0) +
      WriteMany(Outputs(geometries, resources), Map(f.draws, OutputItemOf))
  {
    hide PackAll, WriteMany, Outputs;
  }

  lemma {:induction false} FrameLies(data: seq<byte>, p: nat, f: Frame, geometries: nat, resources: nat)
    requires Lies(data, p, Frames(geometries, resources).write(FrameItemOf(f))) && FrameWritable(f)
    ensures FrameAt(data, p, f) && |Frames(geometries, resources).write(FrameItemOf(f))| == FrameSize(f)
  {
    hide PackAll, Lies, HoldsAt, Fits, Run, Outputs, OutputWritable, Frames, WriteMany, Placed, Sum;
    var c, words := Outputs(geometries, resources), FrameItemOf(f).0;
    FramePieces(geometries, resources, f);
    LiesSplit(data, p, PackAll(U32x2, words), WriteMany(c, Map(f.draws, OutputItemOf)));
    assert U32x2 == Of(2, 4);
    NumbersLie(data, p, 2, words);
    assert HoldsAt(data, p + 4 * 0, 4, words[0]) && HoldsAt(data, p + 4 * 1, 4, words[1]);
    forall o | o in f.draws
      ensures Placed(c, o, OutputItemOf, OutputSize, OutputAt)
    {
      OutputIsPlaced(o, geometries, resources);
    }
    RunLies(data, p + 8, c, f.draws, OutputItemOf, OutputSize, OutputAt);
  }

  // ---------------------------------------------------------------- sections

  lemma {:induction false} ShadersLie(data: seq<byte>, p: nat, xs: seq<Shader>)
    requires Lies(data, p, WriteMany(Shaders(), Map(xs, ShaderItemOf))) && forall x :: x in xs ==> ShaderWritable(x)
    ensures Run(data, p, xs, ShaderSize, ShaderAt)
    ensures |WriteMany(Shaders(), Map(xs, ShaderItemOf))| == Sum(xs, ShaderSize)
  {
    hide Lies, Shaders, ShaderAt, ShaderSize, ShaderWritable;
    forall x | x in xs
      ensures Placed(Shaders(), x, ShaderItemOf, ShaderSize, ShaderAt)
    {
      var bytes := Shaders().write(ShaderItemOf(x));
      LiesItself(bytes);
      ShaderLies(bytes, 0, x);
      forall data, p: nat | Lies(data, p, bytes)
        ensures ShaderAt(data, p, x)
      {
        ShaderLies(data, p, x);
      }
    }
    RunLies(data, p, Shaders(), xs, ShaderItemOf, ShaderSize, ShaderAt);
  }

  lemma {:induction false} ResourcesLie(data: seq<byte>, p: nat, xs: seq<Resource>)
    requires Lies(data, p, WriteMany(Resources(), Map(xs, ResourceItemOf)))
    requires forall x :: x in xs ==> ResourceWritable(x)
    ensures Run(data, p, xs, ResourceSize, ResourceAt)
    ensures |WriteMany(Resources(), Map(xs, ResourceItemOf))| == Sum(xs, ResourceSize)
  {
    hide Lies, Resources, ResourceAt, ResourceSize, ResourceWritable;
    forall x | x in xs
      ensures Placed(Resources(), x, ResourceItemOf, ResourceSize, ResourceAt)
    {
      var bytes := Resources().write(ResourceItemOf(x));
      LiesItself(bytes);
      ResourceLies(bytes, 0, x);
      forall data, p: nat | Lies(data, p, bytes)
        ensures ResourceAt(data, p, x)
      {
        ResourceLies(data, p, x);
      }
    }
    RunLies(data, p, Resources(), xs, ResourceItemOf, ResourceSize, ResourceAt);
  }

  lemma {:induction false} MeshesLie(data: seq<byte>, p: nat, xs: seq<Mesh>, shaders: nat)
    requires Lies(data, p, WriteMany(Meshes(shaders), Map(xs, MeshItemOf))) && forall x :: x in xs ==> MeshWritable(x)
    ensures Run(data, p, xs, MeshSize, MeshAt)
    ensures |WriteMany(Meshes(shaders), Map(xs, MeshItemOf))| == Sum(xs, MeshSize)
  {
    hide Lies, Meshes, MeshAt, MeshSize, MeshWritable;
    forall x | x in xs
      ensures Placed(Meshes(shaders), x, MeshItemOf, MeshSize, MeshAt)
    {
      var bytes := Meshes(shaders).write(MeshItemOf(x));
      LiesItself(bytes);
      MeshLies(bytes, 0, x, shaders);
      forall data, p: nat | Lies(data, p, bytes)
        ensures MeshAt(data, p, x)
      {
        MeshLies(data, p, x, shaders);
      }
    }
    RunLies(data, p, Meshes(shaders), xs, MeshItemOf, MeshSize, MeshAt);
  }

  lemma {:induction false} FramesLie(data: seq<byte>, p: nat, xs: seq<Frame>, geometries: nat, resources: nat)
    requires Lies(data, p, WriteMany(Frames(geometries, resources), Map(xs, FrameItemOf)))
    requires forall x :: x in xs ==> FrameWritable(x)
    ensures Run(data, p, xs, FrameSize, FrameAt)
    ensures |WriteMany(Frames(geometries, resources), Map(xs, FrameItemOf))| == Sum(xs, FrameSize)
  {
    hide Lies, Frames, FrameAt, FrameSize, FrameWritable;
    forall x | x in xs
      ensures Placed(Frames(geometries, resources), x, FrameItemOf, FrameSize, FrameAt)
    {
      var bytes := Frames(geometries, resources).write(FrameItemOf(x));
      LiesItself(bytes);
      FrameLies(bytes, 0, x, geometries, resources);
      forall data, p: nat | Lies(data, p, bytes)
        ensures FrameAt(data, p, x)
      {
        FrameLies(data, p, x, geometries, resources);
      }
    }
    RunLies(data, p, Frames(geometries, resources), xs, FrameItemOf, FrameSize, FrameAt);
  }

  // ---------------------------------------------------------------- the file

  lemma FilePieces(f: Fixture)
    ensures Encoding(f) == MAGIC + (PackAll(U32x7, HeaderOf(f)) + (WriteMany(Shaders(), Map(f.shaders, ShaderItemOf)) +
      (WriteMany(Resources(), Map(f.resources, ResourceItemOf)) +
        (WriteMany(Meshes(|f.shaders|), Map(f.meshes, MeshItemOf)) +
          WriteMany(Frames(|f.meshes|, |f.resources|), Map(f.frames, FrameItemOf))))))
  {
    hide PackAll, WriteMany, Shaders, Resources, Meshes, Frames;
  }

  lemma {:induction false} HeaderLies(data: seq<byte>, f: Fixture)
    requires Lies(data, 0, MAGIC) && Lies(data, 8, PackAll(U32x7, HeaderOf(f))) && Fits(U32x7, HeaderOf(f))
    ensures HeaderAt(data, f) && |PackAll(U32x7, HeaderOf(f))| == 28
  {
    hide PackAll, HoldsAt, Fits;
    var words := HeaderOf(f);
    assert U32x7 == Of(7, 4);
    NumbersLie(data, 8, 7, words);
    assert HoldsAt(data, 8 + 4 * 0, 4, words[0]) && HoldsAt(data, 8 + 4 * 1, 4, words[1]) &&
           HoldsAt(data, 8 + 4 * 2, 4, words[2]) && HoldsAt(data, 8 + 4 * 3, 4, words[3]) &&
           HoldsAt(data, 8 + 4 * 4, 4, words[4]) && HoldsAt(data, 8 + 4 * 5, 4, words[5]) &&
           HoldsAt(data, 8 + 4 * 6, 4, words[6]);
  }

  /** What encode writes has every number and every buffer where the format has it. */
  lemma {:induction false} EncodedBytes(f: Fixture)
    requires Writable(f)
    ensures FixtureAt(Encoding(f), f)
  {
    hide HeaderAt, Run, Sum, Lies, PackAll, WriteMany, Shaders, Resources, Meshes, Frames, Fits, Encoding, HeaderOf,
      ShaderWritable, ResourceWritable, MeshWritable, FrameWritable, CountsInBounds;
    var data, header := Encoding(f), PackAll(U32x7, HeaderOf(f));
    var shaders, resources := WriteMany(Shaders(), Map(f.shaders, ShaderItemOf)), WriteMany(Resources(),
        Map(f.resources, ResourceItemOf));
    var meshes := WriteMany(Meshes(|f.shaders|), Map(f.meshes, MeshItemOf));
    var frames := WriteMany(Frames(|f.meshes|, |f.resources|), Map(f.frames, FrameItemOf));
    FilePieces(f);
    LiesItself(data);
    LiesSplit(data, 0, MAGIC, header + (shaders + (resources + (meshes + frames))));
    LiesSplit(data, 8, header, shaders + (resources + (meshes + frames)));
    HeaderLies(data, f);
    LiesSplit(data, 36, shaders, resources + (meshes + frames));
    ShadersLie(data, 36, f.shaders);
    LiesSplit(data, ResourcesStart(f), resources, meshes + frames);
    ResourcesLie(data, ResourcesStart(f), f.resources);
    LiesSplit(data, MeshesStart(f), meshes, frames);
    MeshesLie(data, MeshesStart(f), f.meshes, |f.shaders|);
    FramesLie(data, FramesStart(f), f.frames, |f.meshes|, |f.resources|);
  }

  /** The data is laid out as f, a sound fixture, and has its counts. */
  ghost predicate Holds(data: seq<byte>, f: Fixture, c: Counts) {
    Sound(f) && FixtureAt(data, f) && CountsOf(f) == c
  }

  /** Data the reader accepts is laid out as a sound fixture of the counts it reports. */
  lemma {:induction false} AcceptedBytes(data: seq<byte>, c: Counts)
    requires Inspected(data) == Ok(c)
    ensures exists f :: Holds(data, f, c)
  {
    hide Inspected, WellFormed, Sound, FixtureAt, Encoding, Writable;
    var f := InspectedIsEncoded(data);
    WellFormedIffSound(f);
    SoundIsWellFormed(f);
    EncodedBytes(f);
    assert Holds(data, f, c);
  }
}
