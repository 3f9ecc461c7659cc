/**
 The replay fixture file of tools/identity_fusion_capture.py: what `encode` writes and the bounded reader
 `inspect_binary` accepts.
 */
module ReplayFixture {
  import opened Prelude
  import opened Bytes
  import opened Parsing
  import opened ReplayGeometry

  const MAGIC: seq<byte> := [0x45, 0x44, 0x56, 0x52, 0x49, 0x46, 0x52, 0x31]
  const VERSION: nat := 1
  const MAX_FRAMES: nat := 4
  const MAX_DRAWS: nat := 64
  const MAX_GEOMETRIES: nat := 64
  const MAX_SHADERS: nat := 5
  const MAX_RESOURCES: nat := 8
  const MAX_RESOURCE: nat := 16777216
  const MAX_TOTAL: nat := 268435456
  const MAX_CONSTANT: nat := 8192
  const MAX_INDICES: nat := 131072
  const POOL_STRIDE: nat := 336
  const BONE_STRIDE: nat := 48

  // ---------------------------------------------------------------- what the fixture holds

  datatype Shader = Shader(hash: nat, data: seq<byte>)

  datatype Resource = Resource(stride: nat, data: seq<byte>)

  datatype Mesh = Mesh(shader: nat, count: nat, stride: nat, layout: seq<Element>, vb: seq<byte>, ib: seq<byte>)

  datatype Output = Output(geometry: nat, pool: nat, bones: nat, original: nat, instance: seq<byte>, cb1: seq<byte>,
      cb2: seq<byte>)

  datatype Frame = Frame(original: nat, draws: seq<Output>)

  datatype Fixture = Fixture(width: nat, height: nat, shaders: seq<Shader>, meshes: seq<Mesh>, resources: seq<Resource>,
      frames: seq<Frame>)

  /** What the bounded reader reports. */
  datatype Counts = Counts(frames: nat, shaders: nat, geometries: nat, resources: nat, draws: seq<nat>,
      layouts: seq<nat>)

  function CountsOf(f: Fixture): Counts {
    Counts(|f.frames|, |f.shaders|, |f.meshes|, |f.resources|, Map(f.frames, (r: Frame) => |r.draws|), Map(f.meshes,
        (m: Mesh) => |m.layout|))
  }

  function Map<A, B>(xs: seq<A>, f: A -> B): (ys: seq<B>)
    ensures |ys| == |xs| && forall i :: 0 <= i < |xs| ==> ys[i] == f(xs[i])
  {
    seq(|xs|, i requires 0 <= i < |xs| => f(xs[i]))
  }

  // ---------------------------------------------------------------- the format

  type ShaderItem = (seq<nat>, seq<byte>)
  type ElementItem = (seq<byte>, seq<nat>)
  type Buffers = (seq<byte>, seq<byte>)
  type MeshItem = (seq<nat>, (seq<ElementItem>, Buffers))
  type OutputItem = (seq<nat>, (seq<byte>, Buffers))
  type FrameItem = (seq<nat>, seq<OutputItem>)
  type Sections = (seq<ShaderItem>, (seq<ShaderItem>, (seq<MeshItem>, seq<FrameItem>)))
  type File = (seq<byte>, (seq<nat>, Sections))
  type Layout<!T> = Codec<T, ExportError>

  function Record(fmt: Format): Layout<seq<nat>> { Words(fmt, TruncatedFixture) }

  function Bounded(min: nat, max: nat): Layout<seq<byte>> { Blob(min, max, TruncatedFixture, InvalidBlobSize) }

  const U64: Format := [8]
  const U32: Format := [4]
  const U32x2: Format := [4, 4]
  const U32x4: Format := [4, 4, 4, 4]
  const U32x6: Format := [4, 4, 4, 4, 4, 4]
  const U32x7: Format := [4, 4, 4, 4, 4, 4, 4]

  predicate AsciiBytes(s: seq<byte>) { forall i :: 0 <= i < |s| ==> s[i] < 128 }

  predicate StrideOk(w: seq<nat>) { |w| == 1 && w[0] in {POOL_STRIDE, BONE_STRIDE} }

  predicate HeaderOk(w: seq<nat>) {
    |w| == 7 && w[0] == VERSION && w[1] != 0 && w[2] != 0 && 1 <= w[3] <= MAX_FRAMES && w[4] <= MAX_SHADERS &&
    w[5] <= MAX_GEOMETRIES &&
    w[6] <= MAX_RESOURCES
  }

  predicate MeshOk(shaders: nat, w: seq<nat>) {
    |w| == 4 && w[0] < shaders && 0 < w[1] <= MAX_INDICES && 0 < w[2] <= MAX_STRIDE && w[3] <= MAX_ELEMENTS
  }

  predicate OutputOk(geometries: nat, resources: nat, w: seq<nat>) {
    |w| == 4 && w[0] < geometries && w[1] < resources && w[2] < resources
  }

  predicate FrameOk(w: seq<nat>) { |w| == 2 && w[1] <= MAX_DRAWS }

  function Shaders(): Layout<ShaderItem> { Both(Record(U64), Bounded(1, MAX_RESOURCE)) }

  function Resources(): Layout<ShaderItem> {
    Both(Where(Record(U32), StrideOk, InvalidStride), Bounded(1, MAX_RESOURCE))
  }

  function Elements(): Layout<ElementItem> {
    Both(Where(Bounded(1, MAX_SEMANTIC), AsciiBytes, InvalidSemantic), Record(U32x6))
  }

  function Indices(w: seq<nat>): Layout<seq<byte>> {
    Where(Bounded(1, MAX_INDICES * 4), (ib: seq<byte>) => |ib| == At(w, 1) * 4, InvalidIndexSize)
  }

  function MeshBody(w: seq<nat>): Layout<(seq<ElementItem>, Buffers)> {
    Both(Fixed(Elements(), At(w, 3)),
         Both(Bounded(1, MAX_VERTEX), Indices(w)))
  }

  function MeshHead(shaders: nat): Layout<seq<nat>> { Where(Record(U32x4), w => MeshOk(shaders, w), InvalidDescriptor) }

  function Meshes(shaders: nat): Layout<MeshItem> { Then(MeshHead(shaders), MeshBody) }

  function OutputHead(geometries: nat, resources: nat): Layout<seq<nat>> {
    Where(Record(U32x4), w => OutputOk(geometries, resources, w), InvalidReference)
  }

  function OutputBody(): Layout<(seq<byte>, Buffers)> {
    Both(Raw(8, TruncatedFixture), Both(Bounded(1, MAX_CONSTANT), Bounded(1, MAX_CONSTANT)))
  }

  function Outputs(geometries: nat, resources: nat): Layout<OutputItem> {
    Both(OutputHead(geometries, resources), OutputBody())
  }

  function FrameHead(): Layout<seq<nat>> { Where(Record(U32x2), FrameOk, InvalidDrawCount) }

  function FrameBody(geometries: nat, resources: nat, w: seq<nat>): Layout<seq<OutputItem>> {
    Fixed(Outputs(geometries, resources), At(w, 1))
  }

  function Frames(geometries: nat, resources: nat): Layout<FrameItem> {
    Then(FrameHead(), (w: seq<nat>) => FrameBody(geometries, resources, w))
  }

  function SectionsOf(w: seq<nat>): Layout<Sections> {
    Both(Fixed(Shaders(), At(w, 4)), Both(Fixed(Resources(), At(w, 6)),
         Both(Fixed(Meshes(At(w, 4)), At(w, 5)), Fixed(Frames(At(w, 5), At(w, 6)), At(w, 3)))))
  }

  function Magic(): Layout<seq<byte>> { Where(Raw(8, TruncatedFixture), (b: seq<byte>) => b == MAGIC, InvalidMagic) }

  function Header(): Layout<seq<nat>> { Where(Record(U32x7), HeaderOk, InvalidHeader) }

  function Files(): Layout<File> { Both(Magic(), Then(Header(), SectionsOf)) }

  // ---------------------------------------------------------------- every part is exact

  lemma MeshBodyExact(w: seq<nat>)
    ensures Exact(MeshBody(w))
  {
    BlobExact(1, MAX_SEMANTIC, TruncatedFixture, InvalidBlobSize);
    WhereExact(Bounded(1, MAX_SEMANTIC), AsciiBytes, InvalidSemantic);
    WordsExact(U32x6, TruncatedFixture);
    BothExact(Where(Bounded(1, MAX_SEMANTIC), AsciiBytes, InvalidSemantic), Record(U32x6));
    FixedExact(Elements(), At(w, 3));
    BlobExact(1, MAX_VERTEX, TruncatedFixture, InvalidBlobSize);
    BlobExact(1, MAX_INDICES * 4, TruncatedFixture, InvalidBlobSize);
    WhereExact(Bounded(1, MAX_INDICES * 4), (ib: seq<byte>) => |ib| == At(w, 1) * 4, InvalidIndexSize);
    BothExact(Bounded(1, MAX_VERTEX), Indices(w));
    BothExact(Fixed(Elements(), At(w, 3)), Both(Bounded(1, MAX_VERTEX), Indices(w)));
  }

  lemma MeshesExact(shaders: nat)
    ensures Exact(Meshes(shaders))
  {
    WordsExact(U32x4, TruncatedFixture);
    WhereExact(Record(U32x4), w => MeshOk(shaders, w), InvalidDescriptor);
    forall w
      ensures Exact(MeshBody(w))
    {
      MeshBodyExact(w);
    }
    ThenExact(MeshHead(shaders), MeshBody);
  }

  lemma OutputsExact(geometries: nat, resources: nat)
    ensures Exact(Outputs(geometries, resources))
  {
    var constants := Bounded(1, MAX_CONSTANT);
    WordsExact(U32x4, TruncatedFixture);
    WhereExact(Record(U32x4), w => OutputOk(geometries, resources, w), InvalidReference);
    RawExact(8, TruncatedFixture);
    BlobExact(1, MAX_CONSTANT, TruncatedFixture, InvalidBlobSize);
    BothExact(constants, constants);
    BothExact(Raw(8, TruncatedFixture), Both(constants, constants));
    BothExact(OutputHead(geometries, resources), OutputBody());
  }

  lemma FramesExact(geometries: nat, resources: nat)
    ensures Exact(Frames(geometries, resources))
  {
    WordsExact(U32x2, TruncatedFixture);
    WhereExact(Record(U32x2), FrameOk, InvalidDrawCount);
    OutputsExact(geometries, resources);
    var body := (w: seq<nat>) => FrameBody(geometries, resources, w);
    forall w
      ensures Exact(body(w))
    {
      FixedExact(Outputs(geometries, resources), At(w, 1));
    }
    ThenExact(FrameHead(), body);
  }

  lemma SectionsExact(w: seq<nat>)
    ensures Exact(SectionsOf(w))
  {
    var meshes, frames := Fixed(Meshes(At(w, 4)), At(w, 5)), Fixed(Frames(At(w, 5), At(w, 6)), At(w, 3));
    WordsExact(U64, TruncatedFixture);
    WordsExact(U32, TruncatedFixture);
    WhereExact(Record(U32), StrideOk, InvalidStride);
    BlobExact(1, MAX_RESOURCE, TruncatedFixture, InvalidBlobSize);
    BothExact(Record(U64), Bounded(1, MAX_RESOURCE));
    BothExact(Where(Record(U32), StrideOk, InvalidStride), Bounded(1, MAX_RESOURCE));
    MeshesExact(At(w, 4));
    FramesExact(At(w, 5), At(w, 6));
    FixedExact(Shaders(), At(w, 4));
    FixedExact(Resources(), At(w, 6));
    FixedExact(Meshes(At(w, 4)), At(w, 5));
    FixedExact(Frames(At(w, 5), At(w, 6)), At(w, 3));
    BothExact(meshes, frames);
    BothExact(Fixed(Resources(), At(w, 6)), Both(meshes, frames));
    BothExact(Fixed(Shaders(), At(w, 4)), Both(Fixed(Resources(), At(w, 6)), Both(meshes, frames)));
  }

  lemma FilesExact()
    ensures Exact(Files())
  {
    RawExact(8, TruncatedFixture);
    WhereExact(Raw(8, TruncatedFixture), (b: seq<byte>) => b == MAGIC, InvalidMagic);
    WordsExact(U32x7, TruncatedFixture);
    WhereExact(Record(U32x7), HeaderOk, InvalidHeader);
    forall w
      ensures Exact(SectionsOf(w))
    {
      SectionsExact(w);
    }
    ThenExact(Header(), SectionsOf);
    BothExact(Magic(), Then(Header(), SectionsOf));
  }

  // ---------------------------------------------------------------- a fixture as a file

  /** Text as ASCII bytes; what is not ASCII becomes a byte no ASCII text has. */
  function Ascii(s: string): seq<byte> { Map(s, AsciiByte) }

  function AsciiByte(c: char): byte { if c < 128 as char then c as int else 255 }

  function AsciiText(s: seq<byte>): string { Map(s, (b: byte) => b as char) }

  function ShaderItemOf(s: Shader): ShaderItem { ([s.hash], s.data) }

  function ResourceItemOf(r: Resource): ShaderItem { ([r.stride], r.data) }

  function ElementItemOf(e: Element): ElementItem {
    (Ascii(e.semantic), [e.index, e.format, e.slot, e.offset, e.classification, e.step])
  }

  function MeshItemOf(m: Mesh): MeshItem {
    ([m.shader, m.count, m.stride, |m.layout|], (Map(m.layout, ElementItemOf), (m.vb, m.ib)))
  }

  function OutputItemOf(o: Output): OutputItem {
    ([o.geometry, o.pool, o.bones, o.original], (o.instance, (o.cb1, o.cb2)))
  }

  function FrameItemOf(f: Frame): FrameItem { ([f.original, |f.draws|], Map(f.draws, OutputItemOf)) }

  function HeaderOf(f: Fixture): seq<nat> {
    [VERSION, f.width, f.height, |f.frames|, |f.shaders|, |f.meshes|, |f.resources|]
  }

  function ContentsOf(f: Fixture): Sections {
    (Map(f.shaders, ShaderItemOf), (Map(f.resources, ResourceItemOf), (Map(f.meshes, MeshItemOf), Map(f.frames,
        FrameItemOf))))
  }

  function FileOf(f: Fixture): File { (MAGIC, (HeaderOf(f), ContentsOf(f))) }

  /** The fixture's file. */
  function Encoding(f: Fixture): seq<byte> { Files().write(FileOf(f)) }

  /** What the bounded reader asks of a fixture. */
  ghost predicate WellFormed(f: Fixture) { Files().ok(FileOf(f)) }

  // ---------------------------------------------------------------- what the reader accepts

  function FileCounts(x: File): Counts {
    var w := x.1.0;
    Counts(At(w, 3), At(w, 4), At(w, 5), At(w, 6), Map(x.1.1.1.1.1, (r: FrameItem) => At(r.0, 1)), Map(x.1.1.1.1.0,
        (m: MeshItem) => At(m.0, 3)))
  }

  /** The counts of the file the data is, or the first error met. */
  function Inspected(data: seq<byte>): Result<Counts, ExportError> { InspectedBy(Files(), data) }

  function InspectedBy(c: Layout<File>, data: seq<byte>): Result<Counts, ExportError> {
    if |data| > MAX_TOTAL then Err(FixtureTooLarge)
    else
      var (x, rest) :- c.parse(data);
      if rest != [] then Err(TrailingBytes) else Ok(FileCounts(x))
  }

  lemma {:induction false} CountsOfFile(f: Fixture)
    ensures FileCounts(FileOf(f)) == CountsOf(f)
  {
    assert FileCounts(FileOf(f)).draws == CountsOf(f).draws;
    assert FileCounts(FileOf(f)).layouts == CountsOf(f).layouts;
  }

  lemma {:induction false} WrittenIsInspected(c: Layout<File>, x: File)
    requires Exact(c) && c.ok(x) && |c.write(x)| <= MAX_TOTAL
    ensures InspectedBy(c, c.write(x)) == Ok(FileCounts(x))
  {
    assert Reads(c, x, []);
    assert c.write(x) + [] == c.write(x);
  }

  lemma {:induction false} InspectedIsWritten(c: Layout<File>, data: seq<byte>) returns (x: File)
    requires Exact(c) && InspectedBy(c, data).Ok?
    ensures c.ok(x) && c.write(x) == data && InspectedBy(c, data) == Ok(FileCounts(x)) && |data| <= MAX_TOTAL
  {
    assert Accepts(c, data);
    x := c.parse(data).value.0;
    assert c.write(x) + [] == c.write(x);
  }

  /** A well-formed fixture that fits the bound is accepted, with its own counts. */
  lemma {:induction false} EncodedIsInspected(f: Fixture)
    requires WellFormed(f) && |Encoding(f)| <= MAX_TOTAL
    ensures Inspected(Encoding(f)) == Ok(CountsOf(f))
  {
    FilesExact();
    WrittenIsInspected(Files(), FileOf(f));
    CountsOfFile(f);
  }

  // ---------------------------------------------------------------- a file as a fixture

  function ShaderOf(x: ShaderItem): Shader { Shader(At(x.0, 0), x.1) }

  function ResourceOf(x: ShaderItem): Resource { Resource(At(x.0, 0), x.1) }

  function ElementOf(x: ElementItem): Element {
    Element(AsciiText(x.0), At(x.1, 0), At(x.1, 1), At(x.1, 2), At(x.1, 3), At(x.1, 4), At(x.1, 5))
  }

  function MeshOf(x: MeshItem): Mesh {
    Mesh(At(x.0, 0), At(x.0, 1), At(x.0, 2), Map(x.1.0, ElementOf), x.1.1.0, x.1.1.1)
  }

  function OutputOf(x: OutputItem): Output {
    Output(At(x.0, 0), At(x.0, 1), At(x.0, 2), At(x.0, 3), x.1.0, x.1.1.0, x.1.1.1)
  }

  function FrameOf(x: FrameItem): Frame { Frame(At(x.0, 0), Map(x.1, OutputOf)) }

  function FixtureOf(x: File): Fixture {
    var body := x.1.1;
    Fixture(At(x.1.0, 1), At(x.1.0, 2), Map(body.0, ShaderOf), Map(body.1.1.0, MeshOf), Map(body.1.0, ResourceOf),
        Map(body.1.1.1, FrameOf))
  }

  lemma {:induction false} MapBack<A(!new), B>(xs: seq<A>, f: A -> B, g: B -> A, ok: A -> bool)
    requires (forall x :: ok(x) ==> g(f(x)) == x) && forall i :: 0 <= i < |xs| ==> ok(xs[i])
    ensures Map(Map(xs, f), g) == xs
  {
    assert forall i :: 0 <= i < |xs| ==> Map(Map(xs, f), g)[i] == g(f(xs[i]));
  }

  lemma {:induction false} ElementBack(x: ElementItem)
    requires Elements().ok(x)
    ensures ElementItemOf(ElementOf(x)) == x
  {
    assert Fits(U32x6, x.1);
    assert x.1 == [x.1[0], x.1[1], x.1[2], x.1[3], x.1[4], x.1[5]];
    assert forall i :: 0 <= i < |x.0| ==> Ascii(AsciiText(x.0))[i] == x.0[i];
    assert Ascii(AsciiText(x.0)) == x.0;
  }

  lemma {:induction false} MeshBack(shaders: nat, x: MeshItem)
    requires Meshes(shaders).ok(x)
    ensures MeshItemOf(MeshOf(x)) == x
  {
    var elements := x.1.0;
    assert MeshBody(x.0).ok(x.1) && AllOk(Elements(), elements) && |elements| == At(x.0, 3);
    assert x.0 == [x.0[0], x.0[1], x.0[2], x.0[3]];
    forall e | Elements().ok(e)
      ensures ElementItemOf(ElementOf(e)) == e
    {
      ElementBack(e);
    }
    MapBack(elements, ElementOf, ElementItemOf, Elements().ok);
  }

  lemma {:induction false} OutputBack(geometries: nat, resources: nat, x: OutputItem)
    requires Outputs(geometries, resources).ok(x)
    ensures OutputItemOf(OutputOf(x)) == x
  {
    assert x.0 == [x.0[0], x.0[1], x.0[2], x.0[3]];
  }

  lemma {:induction false} FrameBack(geometries: nat, resources: nat, x: FrameItem)
    requires Frames(geometries, resources).ok(x)
    ensures FrameItemOf(FrameOf(x)) == x
  {
    var c := Outputs(geometries, resources);
    assert FrameBody(geometries, resources, x.0).ok(x.1) && AllOk(c, x.1) && |x.1| == At(x.0, 1);
    assert x.0 == [x.0[0], x.0[1]];
    forall o | c.ok(o)
      ensures OutputItemOf(OutputOf(o)) == o
    {
      OutputBack(geometries, resources, o);
    }
    MapBack(x.1, OutputOf, OutputItemOf, c.ok);
  }

  lemma {:induction false} SectionsBack(w: seq<nat>, x: Sections)
    requires SectionsOf(w).ok(x)
    ensures Map(Map(x.0, ShaderOf), ShaderItemOf) == x.0
    ensures Map(Map(x.1.0, ResourceOf), ResourceItemOf) == x.1.0
    ensures Map(Map(x.1.1.0, MeshOf), MeshItemOf) == x.1.1.0
    ensures Map(Map(x.1.1.1, FrameOf), FrameItemOf) == x.1.1.1
    ensures |x.0| == At(w, 4) && |x.1.0| == At(w, 6) && |x.1.1.0| == At(w, 5) && |x.1.1.1| == At(w, 3)
  {
    var meshes, frames := Meshes(At(w, 4)), Frames(At(w, 5), At(w, 6));
    assert AllOk(Shaders(), x.0) && AllOk(Resources(), x.1.0) && AllOk(meshes, x.1.1.0) && AllOk(frames, x.1.1.1);
    forall s: ShaderItem | Shaders().ok(s) || Resources().ok(s)
      ensures ShaderItemOf(ShaderOf(s)) == s && ResourceItemOf(ResourceOf(s)) == s
    {
      assert s.0 == [s.0[0]];
    }
    forall m | meshes.ok(m)
      ensures MeshItemOf(MeshOf(m)) == m
    {
      MeshBack(At(w, 4), m);
    }
    forall r | frames.ok(r)
      ensures FrameItemOf(FrameOf(r)) == r
    {
      FrameBack(At(w, 5), At(w, 6), r);
    }
    MapBack(x.0, ShaderOf, ShaderItemOf, Shaders().ok);
    MapBack(x.1.0, ResourceOf, ResourceItemOf, Resources().ok);
    MapBack(x.1.1.0, MeshOf, MeshItemOf, meshes.ok);
    MapBack(x.1.1.1, FrameOf, FrameItemOf, frames.ok);
  }

  lemma {:induction false} HeaderBack(w: seq<nat>)
    requires HeaderOk(w)
    ensures w == [VERSION, At(w, 1), At(w, 2), At(w, 3), At(w, 4), At(w, 5), At(w, 6)]
  {
  }

  lemma {:induction false} BodyBack(w: seq<nat>, f: Fixture, x: Sections)
    requires SectionsOf(w).ok(x) && f.shaders == Map(x.0, ShaderOf) && f.resources == Map(x.1.0, ResourceOf)
    requires f.meshes == Map(x.1.1.0, MeshOf) && f.frames == Map(x.1.1.1, FrameOf)
    ensures ContentsOf(f) == x
    ensures |f.shaders| == At(w, 4) && |f.resources| == At(w, 6) && |f.meshes| == At(w, 5) && |f.frames| == At(w, 3)
  {
    SectionsBack(w, x);
  }

  lemma {:induction false} FileParts(x: File)
    requires Files().ok(x)
    ensures x.0 == MAGIC && HeaderOk(x.1.0) && SectionsOf(x.1.0).ok(x.1.1)
  {
    assert Magic().ok(x.0) && Header().ok(x.1.0);
  }

  lemma {:induction false} FileBack(x: File)
    requires Files().ok(x)
    ensures FileOf(FixtureOf(x)) == x
  {
    FileParts(x);
    HeaderBack(x.1.0);
    BodyBack(x.1.0, FixtureOf(x), x.1.1);
  }

  /** Only the encodings of well-formed fixtures are accepted. */
  lemma {:induction false} InspectedIsEncoded(data: seq<byte>) returns (f: Fixture)
    requires Inspected(data).Ok?
    ensures WellFormed(f) && Encoding(f) == data && |data| <= MAX_TOTAL && Inspected(data) == Ok(CountsOf(f))
  {
    FilesExact();
    var x := InspectedIsWritten(Files(), data);
    FileBack(x);
    f := FixtureOf(x);
    CountsOfFile(f);
  }

  /** The data is the encoding of f, which is well-formed and has the counts c. */
  ghost predicate Encodes(data: seq<byte>, f: Fixture, c: Counts) {
    WellFormed(f) && Encoding(f) == data && CountsOf(f) == c
  }

  /**
   Data is accepted with counts c exactly when it is the encoding, within bounds, of a well-formed fixture of those
   counts.
   */
  lemma {:induction false} InspectIsExact(data: seq<byte>, c: Counts)
    ensures Inspected(data) == Ok(c) <==> |data| <= 268435456 && exists f :: Encodes(data, f, c)
  {
    if Inspected(data) == Ok(c) {
      var f := InspectedIsEncoded(data);
      assert Encodes(data, f, c);
    }
    forall f | Encodes(data, f, c) && |data| <= MAX_TOTAL
      ensures Inspected(data) == Ok(c)
    {
      EncodedIsInspected(f);
    }
  }

  lemma {:induction false} ExtensionIsRefused(c: Layout<File>, data: seq<byte>, ext: seq<byte>)
    requires Exact(c) && InspectedBy(c, data).Ok? && ext != []
    ensures InspectedBy(c, data + ext).Err?
  {
    var x := InspectedIsWritten(c, data);
    assert Reads(c, x, ext);
  }

  /** No proper extension of an accepted file is accepted, and so no proper prefix of one. */
  lemma {:induction false} NoProperPrefix(data: seq<byte>, ext: seq<byte>)
    requires ext != []
    ensures Inspected(data).Err? || Inspected(data + ext).Err?
  {
    FilesExact();
    if Inspected(data).Ok? {
      ExtensionIsRefused(Files(), data, ext);
    }
  }

  // ---------------------------------------------------------------- the bounded reader

  method TakeBlob(st: Stream, min: nat, max: nat) returns (r: Result<seq<byte>, ExportError>)
    requires st.Valid()
    modifies st`pos
    ensures st.Valid()
    ensures Bounded(min, max).parse(old(st.Rest())) == if r.Ok? then Ok((r.value, st.Rest())) else Err(r.error)
  {
    var n :- st.TakeWords(U32, TruncatedFixture);
    if !(min <= n[0] <= max) {
      return Err(InvalidBlobSize);
    }
    r := st.Take(n[0], TruncatedFixture);
  }

  method SkipShader(st: Stream) returns (r: Result<bool, ExportError>, ghost item: ShaderItem)
    requires st.Valid()
    modifies st`pos
    ensures st.Valid() && Parses(Shaders(), old(st.Rest()), r, item, st.Rest())
  {
    item := ([], []);
    var hash := st.TakeWords(U64, TruncatedFixture);
    if hash.Err? { return Err(hash.error), item; }
    var data := TakeBlob(st, 1, MAX_RESOURCE);
    if data.Err? { return Err(data.error), item; }
    return Ok(true), (hash.value, data.value);
  }

  method SkipResource(st: Stream) returns (r: Result<bool, ExportError>, ghost item: ShaderItem)
    requires st.Valid()
    modifies st`pos
    ensures st.Valid() && Parses(Resources(), old(st.Rest()), r, item, st.Rest())
  {
    item := ([], []);
    var stride := st.TakeWords(U32, TruncatedFixture);
    if stride.Err? { return Err(stride.error), item; }
    if stride.value[0] !in {POOL_STRIDE, BONE_STRIDE} { return Err(InvalidStride), item; }
    var data := TakeBlob(st, 1, MAX_RESOURCE);
    if data.Err? { return Err(data.error), item; }
    return Ok(true), (stride.value, data.value);
  }

  method SkipElement(st: Stream) returns (r: Result<bool, ExportError>, ghost item: ElementItem)
    requires st.Valid()
    modifies st`pos
    ensures st.Valid() && Parses(Elements(), old(st.Rest()), r, item, st.Rest())
  {
    item := ([], []);
    var semantic := TakeBlob(st, 1, MAX_SEMANTIC);
    if semantic.Err? { return Err(semantic.error), item; }
    if !AsciiBytes(semantic.value) { return Err(InvalidSemantic), item; }
    var words := st.TakeWords(U32x6, TruncatedFixture);
    if words.Err? { return Err(words.error), item; }
    return Ok(true), (semantic.value, words.value);
  }

  method SkipElements(st: Stream, n: nat) returns (r: Result<bool, ExportError>, ghost items: seq<ElementItem>)
    requires st.Valid()
    modifies st`pos
    ensures st.Valid() && Parses(Fixed(Elements(), n), old(st.Rest()), r, items, st.Rest())
  {
    hide Elements;
    ghost var c, s := Elements(), st.Rest();
    items := [];
    MidwayStarts(c, n, s);
    for i := 0 to n
      invariant st.Valid() && Midway(c, n, s, items, n - i, st.Rest())
    {
      ghost var before := st.Rest();
      var one, item := SkipElement(st);
      MidwayStep(c, n, s, items, n - i, before, one, item, st.Rest());
      if one.Err? { return one, items; }
      items := items + [item];
    }
    r := Ok(true);
    MidwayEnds(c, n, s, items, r, st.Rest());
  }

  method SkipMeshBody(st: Stream, w: seq<nat>)
      returns (r: Result<bool, ExportError>, ghost item: (seq<ElementItem>, Buffers))
    requires st.Valid()
    modifies st`pos
    ensures st.Valid() && Parses(MeshBody(w), old(st.Rest()), r, item, st.Rest())
  {
    item := ([], ([], []));
    var elements, list := SkipElements(st, At(w, 3));
    if elements.Err? { return elements, item; }
    var vb := TakeBlob(st, 1, MAX_VERTEX);
    if vb.Err? { return Err(vb.error), item; }
    var ib := TakeBlob(st, 1, MAX_INDICES * 4);
    if ib.Err? { return Err(ib.error), item; }
    if |ib.value| != At(w, 1) * 4 { return Err(InvalidIndexSize), item; }
    return Ok(true), (list, (vb.value, ib.value));
  }

  /** One geometry: the size of its layout. */
  method SkipMesh(st: Stream, shaders: nat) returns (r: Result<nat, ExportError>, ghost item: MeshItem)
    requires st.Valid()
    modifies st`pos
    ensures st.Valid() && Parses(Meshes(shaders), old(st.Rest()), r, item, st.Rest())
    ensures r.Ok? ==> r.value == At(item.0, 3)
  {
    item := ([], ([], ([], [])));
    var w := st.TakeWords(U32x4, TruncatedFixture);
    if w.Err? { return Err(w.error), item; }
    if !MeshOk(shaders, w.value) { return Err(InvalidDescriptor), item; }
    var body, rest := SkipMeshBody(st, w.value);
    if body.Err? { return Err(body.error), item; }
    return Ok(At(w.value, 3)), (w.value, rest);
  }

  method SkipOutput(st: Stream, geometries: nat, resources: nat)
      returns (r: Result<bool, ExportError>, ghost item: OutputItem)
    requires st.Valid()
    modifies st`pos
    ensures st.Valid() && Parses(Outputs(geometries, resources), old(st.Rest()), r, item, st.Rest())
  {
    item := ([], ([], ([], [])));
    var w := st.TakeWords(U32x4, TruncatedFixture);
    if w.Err? { return Err(w.error), item; }
    if !OutputOk(geometries, resources, w.value) { return Err(InvalidReference), item; }
    var instance := st.Take(8, TruncatedFixture);
    if instance.Err? { return Err(instance.error), item; }
    var cb1 := TakeBlob(st, 1, MAX_CONSTANT);
    if cb1.Err? { return Err(cb1.error), item; }
    var cb2 := TakeBlob(st, 1, MAX_CONSTANT);
    if cb2.Err? { return Err(cb2.error), item; }
    return Ok(true), (w.value, (instance.value, (cb1.value, cb2.value)));
  }

  method SkipOutputs(st: Stream, geometries: nat, resources: nat, n: nat)
      returns (r: Result<bool, ExportError>, ghost items: seq<OutputItem>)
    requires st.Valid()
    modifies st`pos
    ensures st.Valid() && Parses(Fixed(Outputs(geometries, resources), n), old(st.Rest()), r, items, st.Rest())
  {
    hide Outputs;
    ghost var c, s := Outputs(geometries, resources), st.Rest();
    items := [];
    MidwayStarts(c, n, s);
    for i := 0 to n
      invariant st.Valid() && Midway(c, n, s, items, n - i, st.Rest())
    {
      ghost var before := st.Rest();
      var one, item := SkipOutput(st, geometries, resources);
      MidwayStep(c, n, s, items, n - i, before, one, item, st.Rest());
      if one.Err? { return one, items; }
      items := items + [item];
    }
    r := Ok(true);
    MidwayEnds(c, n, s, items, r, st.Rest());
  }

  /** One frame: how many draws it has. */
  method SkipFrame(st: Stream, geometries: nat, resources: nat)
      returns (r: Result<nat, ExportError>, ghost item: FrameItem)
    requires st.Valid()
    modifies st`pos
    ensures st.Valid() && Parses(Frames(geometries, resources), old(st.Rest()), r, item, st.Rest())
    ensures r.Ok? ==> r.value == At(item.0, 1)
  {
    item := ([], []);
    var w := st.TakeWords(U32x2, TruncatedFixture);
    if w.Err? { return Err(w.error), item; }
    if !FrameOk(w.value) { return Err(InvalidDrawCount), item; }
    var draws, list := SkipOutputs(st, geometries, resources, At(w.value, 1));
    if draws.Err? { return Err(draws.error), item; }
    return Ok(At(w.value, 1)), (w.value, list);
  }

  method SkipShaders(st: Stream, n: nat) returns (r: Result<bool, ExportError>, ghost items: seq<ShaderItem>)
    requires st.Valid()
    modifies st`pos
    ensures st.Valid() && Parses(Fixed(Shaders(), n), old(st.Rest()), r, items, st.Rest())
  {
    hide Shaders;
    ghost var c, s := Shaders(), st.Rest();
    items := [];
    MidwayStarts(c, n, s);
    for i := 0 to n
      invariant st.Valid() && Midway(c, n, s, items, n - i, st.Rest())
    {
      ghost var before := st.Rest();
      var one, item := SkipShader(st);
      MidwayStep(c, n, s, items, n - i, before, one, item, st.Rest());
      if one.Err? { return one, items; }
      items := items + [item];
    }
    r := Ok(true);
    MidwayEnds(c, n, s, items, r, st.Rest());
  }

  method SkipResources(st: Stream, n: nat) returns (r: Result<bool, ExportError>, ghost items: seq<ShaderItem>)
    requires st.Valid()
    modifies st`pos
    ensures st.Valid() && Parses(Fixed(Resources(), n), old(st.Rest()), r, items, st.Rest())
  {
    hide Resources;
    ghost var c, s := Resources(), st.Rest();
    items := [];
    MidwayStarts(c, n, s);
    for i := 0 to n
      invariant st.Valid() && Midway(c, n, s, items, n - i, st.Rest())
    {
      ghost var before := st.Rest();
      var one, item := SkipResource(st);
      MidwayStep(c, n, s, items, n - i, before, one, item, st.Rest());
      if one.Err? { return one, items; }
      items := items + [item];
    }
    r := Ok(true);
    MidwayEnds(c, n, s, items, r, st.Rest());
  }

  method SkipMeshes(st: Stream, shaders: nat, n: nat)
      returns (r: Result<seq<nat>, ExportError>, ghost items: seq<MeshItem>)
    requires st.Valid()
    modifies st`pos
    ensures st.Valid() && Parses(Fixed(Meshes(shaders), n), old(st.Rest()), r, items, st.Rest())
    ensures r.Ok? ==> r.value == Map(items, (m: MeshItem) => At(m.0, 3))
  {
    hide Meshes;
    ghost var c, s := Meshes(shaders), st.Rest();
    var layouts: seq<nat> := [];
    items := [];
    MidwayStarts(c, n, s);
    for i := 0 to n
      invariant st.Valid() && Midway(c, n, s, items, n - i, st.Rest())
      invariant |layouts| == |items| && forall x :: 0 <= x < |items| ==> layouts[x] == At(items[x].0, 3)
    {
      ghost var before := st.Rest();
      var one, item := SkipMesh(st, shaders);
      MidwayStep(c, n, s, items, n - i, before, one, item, st.Rest());
      if one.Err? { return Err(one.error), items; }
      items := items + [item];
      layouts := layouts + [one.value];
    }
    assert layouts == Map(items, (m: MeshItem) => At(m.0, 3));
    r := Ok(layouts);
    MidwayEnds(c, n, s, items, r, st.Rest());
  }

  method SkipFrames(st: Stream, geometries: nat, resources: nat, n: nat)
      returns (r: Result<seq<nat>, ExportError>, ghost items: seq<FrameItem>)
    requires st.Valid()
    modifies st`pos
    ensures st.Valid() && Parses(Fixed(Frames(geometries, resources), n), old(st.Rest()), r, items, st.Rest())
    ensures r.Ok? ==> r.value == Map(items, (f: FrameItem) => At(f.0, 1))
  {
    hide Frames;
    ghost var c, s := Frames(geometries, resources), st.Rest();
    var draws: seq<nat> := [];
    items := [];
    MidwayStarts(c, n, s);
    for i := 0 to n
      invariant st.Valid() && Midway(c, n, s, items, n - i, st.Rest())
      invariant |draws| == |items| && forall x :: 0 <= x < |items| ==> draws[x] == At(items[x].0, 1)
    {
      ghost var before := st.Rest();
      var one, item := SkipFrame(st, geometries, resources);
      MidwayStep(c, n, s, items, n - i, before, one, item, st.Rest());
      if one.Err? { return Err(one.error), items; }
      items := items + [item];
      draws := draws + [one.value];
    }
    assert draws == Map(items, (f: FrameItem) => At(f.0, 1));
    r := Ok(draws);
    MidwayEnds(c, n, s, items, r, st.Rest());
  }

  /** The sections after the header, and what was counted in them. */
  method SkipSections(st: Stream, w: seq<nat>)
      returns (r: Result<(seq<nat>, seq<nat>), ExportError>, ghost items: Sections)
    requires st.Valid()
    modifies st`pos
    ensures st.Valid() && Parses(SectionsOf(w), old(st.Rest()), r, items, st.Rest())
    ensures r.Ok? ==>
      r.value.0 == Map(items.1.1.1, (f: FrameItem) => At(f.0, 1)) &&
      r.value.1 == Map(items.1.1.0, (m: MeshItem) => At(m.0, 3))
  {
    items := ([], ([], ([], [])));
    var r1, shaders := SkipShaders(st, At(w, 4));
    if r1.Err? { return Err(r1.error), items; }
    var r2, resources := SkipResources(st, At(w, 6));
    if r2.Err? { return Err(r2.error), items; }
    var layouts, meshes := SkipMeshes(st, At(w, 4), At(w, 5));
    if layouts.Err? { return Err(layouts.error), items; }
    var draws, frames := SkipFrames(st, At(w, 5), At(w, 6), At(w, 3));
    if draws.Err? { return Err(draws.error), items; }
    return Ok((draws.value, layouts.value)), (shaders, (resources, (meshes, frames)));
  }

  /** inspect_binary: the counts of a fixture file, or the first error met. */
  method Inspect(data: seq<byte>) returns (r: Result<Counts, ExportError>)
    ensures r == Inspected(data)
  {
    if |data| > MAX_TOTAL {
      return Err(FixtureTooLarge);
    }
    var st := new Stream(data);
    var magic :- st.Take(8, TruncatedFixture);
    if magic != MAGIC {
      return Err(InvalidMagic);
    }
    var w :- st.TakeWords(U32x7, TruncatedFixture);
    if !HeaderOk(w) {
      return Err(InvalidHeader);
    }
    var counts, items := SkipSections(st, w);
    if counts.Err? {
      return Err(counts.error);
    }
    ghost var rest := st.Rest();
    var more := st.Read(1);
    if more != [] {
      return Err(TrailingBytes);
    }
    assert Files().parse(data) == Ok(((magic, (w, items)), rest));
    return Ok(Counts(At(w, 3), At(w, 4), At(w, 5), At(w, 6), counts.value.0, counts.value.1));
  }

  // ---------------------------------------------------------------- the writer

  predicate ElementWritable(e: Element) {
    AsciiBytes(Ascii(e.semantic)) && |e.semantic| <= MAX_SEMANTIC && Fits(U32x6, ElementItemOf(e).1)
  }

  predicate MeshWritable(m: Mesh) {
    Fits(U32x4, MeshItemOf(m).0) && (forall e :: e in m.layout ==> ElementWritable(e)) && |m.vb| <= MAX_VERTEX &&
    |m.ib| <= MAX_INDICES * 4
  }

  predicate OutputWritable(o: Output) {
    Fits(U32x4, OutputItemOf(o).0) && |o.instance| == 8 && |o.cb1| <= MAX_CONSTANT && |o.cb2| <= MAX_CONSTANT
  }

  predicate FrameWritable(f: Frame) { Fits(U32x2, FrameItemOf(f).0) && forall o :: o in f.draws ==> OutputWritable(o) }

  predicate ShaderWritable(s: Shader) { Fits(U64, [s.hash]) && |s.data| <= MAX_RESOURCE }

  predicate ResourceWritable(r: Resource) { Fits(U32, [r.stride]) && |r.data| <= MAX_RESOURCE }

  predicate CountsInBounds(f: Fixture) {
    1 <= |f.frames| <= MAX_FRAMES && |f.shaders| <= MAX_SHADERS && |f.meshes| <= MAX_GEOMETRIES &&
    forall r :: r in f.frames ==> |r.draws| <= MAX_DRAWS
  }

  /** The writer's own checks: its bounds and the widths of its fields. */
  predicate Writable(f: Fixture) {
    CountsInBounds(f) && Fits(U32x7, HeaderOf(f)) && (forall x :: x in f.shaders ==> ShaderWritable(x)) &&
    (forall x :: x in f.resources ==> ResourceWritable(x)) && (forall x :: x in f.meshes ==> MeshWritable(x)) &&
    forall x :: x in f.frames ==> FrameWritable(x)
  }

  /** The bytes are appended to what was written before, or the output fails where it may not be. */
  ghost predicate Put(before: seq<byte>, after: seq<byte>, r: Result<(), ExportError>, ok: bool, bytes: seq<byte>) {
    if r.Ok? then ok && after == before + bytes else !ok && r.error != FixtureCount && r.error != FixtureTooLarge
  }

  lemma {:induction false} WrittenStep<A, T>(c: Layout<T>, xs: seq<A>, f: A -> T, i: nat, out: seq<byte>)
    requires i < |xs|
    ensures out + WriteMany(c, Map(xs[..i + 1], f)) == out + WriteMany(c, Map(xs[..i], f)) + c.write(f(xs[i]))
    ensures forall x :: x in xs[..i + 1] ==> x in xs[..i] || x == xs[i]
  {
    assert Map(xs[..i + 1], f) == Map(xs[..i], f) + [f(xs[i])];
    WriteManyAppend(c, Map(xs[..i], f), f(xs[i]));
  }

  /** The output the fixture is written to. */
  class Writer {
    var out: seq<byte>

    constructor (magic: seq<byte>)
      ensures out == magic
    {
      out := magic;
    }

    method PutNumbers(fmt: Format, words: seq<nat>) returns (r: Result<(), ExportError>)
      modifies this
      ensures Put(old(out), out, r, Fits(fmt, words), PackAll(fmt, words))
    {
      if !Fits(fmt, words) {
        return Err(FieldOutOfRange);
      }
      out := out + PackAll(fmt, words);
      return Ok(());
    }

    method PutBytes(data: seq<byte>, max: nat) returns (r: Result<(), ExportError>)
      modifies this
      ensures Put(old(out), out, r, |data| <= max, PackAll(U32, [|data|]) + data)
    {
      if |data| > max {
        return Err(BlobTooLarge);
      }
      out := out + (PackAll(U32, [|data|]) + data);
      return Ok(());
    }

    method PutShader(s: Shader) returns (r: Result<(), ExportError>)
      modifies this
      ensures Put(old(out), out, r, ShaderWritable(s), Shaders().write(ShaderItemOf(s)))
    {
      hide PackAll, Fits;
      Shift(out, PackAll(U64, [s.hash]), PackAll(U32, [|s.data|]) + s.data);
      var _ :- PutNumbers(U64, [s.hash]);
      r := PutBytes(s.data, MAX_RESOURCE);
    }

    method PutResource(x: Resource) returns (r: Result<(), ExportError>)
      modifies this
      ensures Put(old(out), out, r, ResourceWritable(x), Resources().write(ResourceItemOf(x)))
    {
      hide PackAll, Fits;
      Shift(out, PackAll(U32, [x.stride]), PackAll(U32, [|x.data|]) + x.data);
      var _ :- PutNumbers(U32, [x.stride]);
      r := PutBytes(x.data, MAX_RESOURCE);
    }

    method PutElement(e: Element) returns (r: Result<(), ExportError>)
      modifies this
      ensures Put(old(out), out, r, ElementWritable(e), Elements().write(ElementItemOf(e)))
    {
      hide PackAll, Fits;
      ghost var text, numbers := Ascii(e.semantic), ElementItemOf(e).1;
      Shift(out, PackAll(U32, [|text|]) + text, PackAll(U32x6, numbers));
      if !AsciiBytes(Ascii(e.semantic)) {
        return Err(InvalidSemantic);
      }
      var _ :- PutBytes(Ascii(e.semantic), MAX_SEMANTIC);
      r := PutNumbers(U32x6, ElementItemOf(e).1);
    }

    method PutElements(xs: seq<Element>) returns (r: Result<(), ExportError>)
      modifies this
      ensures Put(old(out), out, r, forall x :: x in xs ==> ElementWritable(x),
        WriteMany(Elements(), Map(xs, ElementItemOf)))
    {
      hide Elements, ElementWritable, ElementItemOf;
      ghost var c, start := Elements(), out;
      assert start + WriteMany(c, Map(xs[..0], ElementItemOf)) == start;
      for i := 0 to |xs|
        invariant forall x :: x in xs[..i] ==> ElementWritable(x)
        invariant out == start + WriteMany(c, Map(xs[..i], ElementItemOf))
      {
        WrittenStep(c, xs, ElementItemOf, i, start);
        assert xs[i] in xs;
        var _ :- PutElement(xs[i]);
      }
      assert xs[..|xs|] == xs;
      return Ok(());
    }

    method PutMesh(m: Mesh, ghost shaders: nat) returns (r: Result<(), ExportError>)
      modifies this
      ensures Put(old(out), out, r, MeshWritable(m), Meshes(shaders).write(MeshItemOf(m)))
    {
      hide PackAll, WriteMany, ElementWritable, Elements, Fits;
      ghost var item := MeshItemOf(m);
      ghost var head, list := PackAll(U32x4, item.0), WriteMany(Elements(), item.1.0);
      ghost var vb, ib := PackAll(U32, [|m.vb|]) + m.vb, PackAll(U32, [|m.ib|]) + m.ib;
      assert Meshes(shaders).write(item) == head + (list + (vb + ib));
      Shift(out, head, list + (vb + ib));
      Shift(out + head, list, vb + ib);
      Shift(out + head + list, vb, ib);
      var _ :- PutNumbers(U32x4, MeshItemOf(m).0);
      var _ :- PutElements(m.layout);
      var _ :- PutBytes(m.vb, MAX_VERTEX);
      r := PutBytes(m.ib, MAX_INDICES * 4);
    }

    method PutMeshes(xs: seq<Mesh>, ghost shaders: nat) returns (r: Result<(), ExportError>)
      modifies this
      ensures Put(old(out), out, r, forall x :: x in xs ==> MeshWritable(x),
        WriteMany(Meshes(shaders), Map(xs, MeshItemOf)))
    {
      hide Meshes, MeshWritable, MeshItemOf;
      ghost var c, start := Meshes(shaders), out;
      assert start + WriteMany(c, Map(xs[..0], MeshItemOf)) == start;
      for i := 0 to |xs|
        invariant forall x :: x in xs[..i] ==> MeshWritable(x)
        invariant out == start + WriteMany(c, Map(xs[..i], MeshItemOf))
      {
        WrittenStep(c, xs, MeshItemOf, i, start);
        assert xs[i] in xs;
        var _ :- PutMesh(xs[i], shaders);
      }
      assert xs[..|xs|] == xs;
      return Ok(());
    }

    method PutOutput(o: Output, ghost geometries: nat, ghost resources: nat) returns (r: Result<(), ExportError>)
      modifies this
      ensures Put(old(out), out, r, OutputWritable(o), Outputs(geometries, resources).write(OutputItemOf(o)))
    {
      hide PackAll, Fits;
      ghost var head := PackAll(U32x4, OutputItemOf(o).0);
      ghost var cb1, cb2 := PackAll(U32, [|o.cb1|]) + o.cb1, PackAll(U32, [|o.cb2|]) + o.cb2;
      assert Outputs(geometries, resources).write(OutputItemOf(o)) == head + (o.instance + (cb1 + cb2));
      Shift(out, head, o.instance + (cb1 + cb2));
      Shift(out + head, o.instance, cb1 + cb2);
      Shift(out + head + o.instance, cb1, cb2);
      var _ :- PutNumbers(U32x4, OutputItemOf(o).0);
      if |o.instance| != 8 {
        return Err(BadInstance);
      }
      out := out + o.instance;
      var _ :- PutBytes(o.cb1, MAX_CONSTANT);
      r := PutBytes(o.cb2, MAX_CONSTANT);
    }

    method PutOutputs(xs: seq<Output>, ghost geometries: nat, ghost resources: nat) returns (r: Result<(), ExportError>)
      modifies this
      ensures Put(old(out), out, r, forall x :: x in xs ==> OutputWritable(x),
        WriteMany(Outputs(geometries, resources), Map(xs, OutputItemOf)))
    {
      hide Outputs, OutputWritable, OutputItemOf;
      ghost var c, start := Outputs(geometries, resources), out;
      assert start + WriteMany(c, Map(xs[..0], OutputItemOf)) == start;
      for i := 0 to |xs|
        invariant forall x :: x in xs[..i] ==> OutputWritable(x)
        invariant out == start + WriteMany(c, Map(xs[..i], OutputItemOf))
      {
        WrittenStep(c, xs, OutputItemOf, i, start);
        assert xs[i] in xs;
        var _ :- PutOutput(xs[i], geometries, resources);
      }
      assert xs[..|xs|] == xs;
      return Ok(());
    }

    method PutFrame(f: Frame, ghost geometries: nat, ghost resources: nat) returns (r: Result<(), ExportError>)
      modifies this
      ensures Put(old(out), out, r, FrameWritable(f), Frames(geometries, resources).write(FrameItemOf(f)))
    {
      hide PackAll, WriteMany, OutputWritable, Outputs, Fits;
      ghost var item := FrameItemOf(f);
      ghost var head, list := PackAll(U32x2, item.0), WriteMany(Outputs(geometries, resources), item.1);
      assert Frames(geometries, resources).write(item) == head + list;
      Shift(out, head, list);
      var _ :- PutNumbers(U32x2, FrameItemOf(f).0);
      r := PutOutputs(f.draws, geometries, resources);
    }

    method PutFrames(xs: seq<Frame>, ghost geometries: nat, ghost resources: nat) returns (r: Result<(), ExportError>)
      modifies this
      ensures Put(old(out), out, r, forall x :: x in xs ==> FrameWritable(x),
        WriteMany(Frames(geometries, resources), Map(xs, FrameItemOf)))
    {
      hide Frames, FrameWritable, FrameItemOf;
      ghost var c, start := Frames(geometries, resources), out;
      assert start + WriteMany(c, Map(xs[..0], FrameItemOf)) == start;
      for i := 0 to |xs|
        invariant forall x :: x in xs[..i] ==> FrameWritable(x)
        invariant out == start + WriteMany(c, Map(xs[..i], FrameItemOf))
      {
        WrittenStep(c, xs, FrameItemOf, i, start);
        assert xs[i] in xs;
        var _ :- PutFrame(xs[i], geometries, resources);
      }
      assert xs[..|xs|] == xs;
      return Ok(());
    }

    method PutShaders(xs: seq<Shader>) returns (r: Result<(), ExportError>)
      modifies this
      ensures Put(old(out), out, r, forall x :: x in xs ==> ShaderWritable(x),
        WriteMany(Shaders(), Map(xs, ShaderItemOf)))
    {
      hide Shaders, ShaderWritable, ShaderItemOf;
      ghost var c, start := Shaders(), out;
      assert start + WriteMany(c, Map(xs[..0], ShaderItemOf)) == start;
      for i := 0 to |xs|
        invariant forall x :: x in xs[..i] ==> ShaderWritable(x)
        invariant out == start + WriteMany(c, Map(xs[..i], ShaderItemOf))
      {
        WrittenStep(c, xs, ShaderItemOf, i, start);
        assert xs[i] in xs;
        var _ :- PutShader(xs[i]);
      }
      assert xs[..|xs|] == xs;
      return Ok(());
    }

    method PutResources(xs: seq<Resource>) returns (r: Result<(), ExportError>)
      modifies this
      ensures Put(old(out), out, r, forall x :: x in xs ==> ResourceWritable(x),
        WriteMany(Resources(), Map(xs, ResourceItemOf)))
    {
      hide Resources, ResourceWritable, ResourceItemOf;
      ghost var c, start := Resources(), out;
      assert start + WriteMany(c, Map(xs[..0], ResourceItemOf)) == start;
      for i := 0 to |xs|
        invariant forall x :: x in xs[..i] ==> ResourceWritable(x)
        invariant out == start + WriteMany(c, Map(xs[..i], ResourceItemOf))
      {
        WrittenStep(c, xs, ResourceItemOf, i, start);
        assert xs[i] in xs;
        var _ :- PutResource(xs[i]);
      }
      assert xs[..|xs|] == xs;
      return Ok(());
    }

    method PutSections(f: Fixture) returns (r: Result<(), ExportError>)
      modifies this
      ensures Put(old(out), out, r,
                  (forall x :: x in f.shaders ==> ShaderWritable(x)) &&
                  (forall x :: x in f.resources ==> ResourceWritable(x)) &&
                  (forall x :: x in f.meshes ==> MeshWritable(x)) && (forall x :: x in f.frames ==> FrameWritable(x)),
                  SectionsOf(HeaderOf(f)).write(ContentsOf(f)))
    {
      hide WriteMany, Shaders, Resources, Meshes, Frames, ShaderWritable, ResourceWritable, MeshWritable, FrameWritable;
      var w := HeaderOf(f);
      ghost var x := ContentsOf(f);
      ghost var shaders, resources := WriteMany(Shaders(), x.0), WriteMany(Resources(), x.1.0);
      ghost var meshes, frames := WriteMany(Meshes(At(w, 4)), x.1.1.0), WriteMany(Frames(At(w, 5), At(w, 6)), x.1.1.1);
      assert SectionsOf(w).write(x) == shaders + (resources + (meshes + frames));
      Shift(out, shaders, resources + (meshes + frames));
      Shift(out + shaders, resources, meshes + frames);
      Shift(out + shaders + resources, meshes, frames);
      var _ :- PutShaders(f.shaders);
      var _ :- PutResources(f.resources);
      var _ :- PutMeshes(f.meshes, At(w, 4));
      r := PutFrames(f.frames, At(w, 5), At(w, 6));
    }
  }

  /** encode: the fixture's file, or the first bound it breaks. */
  method Encode(f: Fixture) returns (r: Result<seq<byte>, ExportError>)
    ensures r.Ok? <==> Writable(f) && |Encoding(f)| <= MAX_TOTAL
    ensures r.Ok? ==> r.value == Encoding(f)
    ensures !CountsInBounds(f) ==> r == Err(FixtureCount)
    ensures r == Err(FixtureTooLarge) <==> Writable(f) && |Encoding(f)| > MAX_TOTAL
  {
    hide SectionsOf, ContentsOf, PackAll;
    Shift(MAGIC, PackAll(U32x7, HeaderOf(f)), SectionsOf(HeaderOf(f)).write(ContentsOf(f)));
    if !CountsInBounds(f) {
      return Err(FixtureCount);
    }
    var w := new Writer(MAGIC);
    var _ :- w.PutNumbers(U32x7, HeaderOf(f));
    var _ :- w.PutSections(f);
    if |w.out| > MAX_TOTAL {
      return Err(FixtureTooLarge);
    }
    return Ok(w.out);
  }

  // ---------------------------------------------------------------- what makes a fixture well-formed

  predicate MeshSound(m: Mesh, shaders: nat) {
    MeshWritable(m) && m.shader < shaders && 0 < m.count <= MAX_INDICES && 0 < m.stride <= MAX_STRIDE &&
    |m.layout| <= MAX_ELEMENTS &&
    (forall e :: e in m.layout ==> e.semantic != []) && m.vb != [] && |m.ib| == m.count * 4
  }

  predicate OutputSound(o: Output, geometries: nat, resources: nat) {
    OutputWritable(o) && o.geometry < geometries && o.pool < resources && o.bones < resources && o.cb1 != [] &&
    o.cb2 != []
  }

  predicate FrameSound(f: Frame, geometries: nat, resources: nat) {
    FrameWritable(f) && |f.draws| <= MAX_DRAWS && forall o :: o in f.draws ==> OutputSound(o, geometries, resources)
  }

  predicate ResourceSound(r: Resource) { r.stride in {POOL_STRIDE, BONE_STRIDE} && 0 < |r.data| <= MAX_RESOURCE }

  /** The fixture the bounded reader looks for: sizes, references and contents in bounds, nothing empty. */
  predicate Sound(f: Fixture) {
    CountsInBounds(f) && Fits(U32x7, HeaderOf(f)) && f.width != 0 && f.height != 0 && |f.resources| <= MAX_RESOURCES &&
    (forall x :: x in f.shaders ==> ShaderWritable(x) && x.data != []) &&
    (forall x :: x in f.resources ==> ResourceSound(x)) &&
    (forall x :: x in f.meshes ==> MeshSound(x, |f.shaders|)) &&
    forall x :: x in f.frames ==> FrameSound(x, |f.meshes|, |f.resources|)
  }

  /** That in numbers: the bounds of the format, item by item. */
  predicate SoundInNumbers(f: Fixture) {
    1 <= |f.frames| <= 4 && |f.shaders| <= 5 && |f.meshes| <= 64 && |f.resources| <= 8 &&
    0 < f.width < 0x1_0000_0000 && 0 < f.height < 0x1_0000_0000 &&
    (forall s :: s in f.shaders ==> s.hash < 0x1_0000_0000_0000_0000 && 0 < |s.data| <= 16777216) &&
    (forall r :: r in f.resources ==> r.stride in {336, 48} && 0 < |r.data| <= 16777216) &&
    (forall m :: m in f.meshes ==> MeshInNumbers(m) && m.shader < |f.shaders|) &&
    forall r :: r in f.frames ==> FrameInNumbers(f, r)
  }

  predicate FrameInNumbers(f: Fixture, r: Frame) {
    r.original < 0x1_0000_0000 && |r.draws| <= 64 &&
    forall o :: o in r.draws ==>
      OutputInNumbers(o) && o.geometry < |f.meshes| && o.pool < |f.resources| && o.bones < |f.resources|
  }

  predicate MeshInNumbers(m: Mesh) {
    0 < m.count <= 131072 && 0 < m.stride <= 256 && |m.layout| <= 32 && 0 < |m.vb| <= 262144 && |m.ib| == 4 * m.count &&
    forall e :: e in m.layout ==> ElementInNumbers(e)
  }

  predicate ElementInNumbers(e: Element) {
    0 < |e.semantic| <= 63 && (forall c :: c in e.semantic ==> c < 128 as char) && e.index < 0x1_0000_0000 &&
    e.format < 0x1_0000_0000 && e.slot < 0x1_0000_0000 && e.offset < 0x1_0000_0000 &&
    e.classification < 0x1_0000_0000 && e.step < 0x1_0000_0000
  }

  predicate OutputInNumbers(o: Output) {
    o.original < 0x1_0000_0000 && |o.instance| == 8 && 0 < |o.cb1| <= 8192 && 0 < |o.cb2| <= 8192
  }

  lemma {:induction false} AllOfMap<A, T>(c: Layout<T>, xs: seq<A>, f: A -> T)
    requires forall x :: x in xs ==> c.ok(f(x))
    ensures AllOk(c, Map(xs, f))
  {
  }

  lemma {:induction false} MeshIsOk(m: Mesh, shaders: nat)
    requires MeshSound(m, shaders)
    ensures Meshes(shaders).ok(MeshItemOf(m))
  {
    forall e | e in m.layout
      ensures Elements().ok(ElementItemOf(e))
    {
    }
    AllOfMap(Elements(), m.layout, ElementItemOf);
  }

  lemma {:induction false} FrameIsOk(f: Frame, geometries: nat, resources: nat)
    requires FrameSound(f, geometries, resources)
    ensures Frames(geometries, resources).ok(FrameItemOf(f))
  {
    forall o | o in f.draws
      ensures Outputs(geometries, resources).ok(OutputItemOf(o))
    {
    }
    AllOfMap(Outputs(geometries, resources), f.draws, OutputItemOf);
  }

  lemma {:induction false} SmallFits(stride: nat)
    requires stride in {POOL_STRIDE, BONE_STRIDE}
    ensures Fits(U32, [stride])
  {
    SpanOfFour();
  }

  lemma {:induction false} BlobsAreOk(f: Fixture)
    requires Sound(f)
    ensures AllOk(Shaders(), Map(f.shaders, ShaderItemOf)) && AllOk(Resources(), Map(f.resources, ResourceItemOf))
  {
    hide MeshSound, FrameSound, Span, CountsInBounds, HeaderOf;
    forall x | x in f.shaders
      ensures Shaders().ok(ShaderItemOf(x))
    {
    }
    forall x | x in f.resources
      ensures Resources().ok(ResourceItemOf(x))
    {
      SmallFits(x.stride);
    }
    AllOfMap(Shaders(), f.shaders, ShaderItemOf);
    AllOfMap(Resources(), f.resources, ResourceItemOf);
  }

  lemma {:induction false} RecordsAreOk(f: Fixture)
    requires Sound(f)
    ensures AllOk(Meshes(|f.shaders|), Map(f.meshes, MeshItemOf)) && AllOk(Frames(|f.meshes|, |f.resources|),
        Map(f.frames, FrameItemOf))
  {
    hide MeshSound, FrameSound, Meshes, Frames, MeshItemOf, FrameItemOf, ResourceSound, ShaderWritable, Fits, HeaderOf;
    forall x | x in f.meshes
      ensures Meshes(|f.shaders|).ok(MeshItemOf(x))
    {
      MeshIsOk(x, |f.shaders|);
    }
    forall x | x in f.frames
      ensures Frames(|f.meshes|, |f.resources|).ok(FrameItemOf(x))
    {
      FrameIsOk(x, |f.meshes|, |f.resources|);
    }
    AllOfMap(Meshes(|f.shaders|), f.meshes, MeshItemOf);
    AllOfMap(Frames(|f.meshes|, |f.resources|), f.frames, FrameItemOf);
  }

  lemma {:induction false} SectionsAreOk(f: Fixture)
    requires Sound(f)
    ensures SectionsOf(HeaderOf(f)).ok(ContentsOf(f))
  {
    hide Sound, Meshes, Frames, Shaders, Resources, MeshItemOf, FrameItemOf, ShaderItemOf, ResourceItemOf, AllOk;
    BlobsAreOk(f);
    RecordsAreOk(f);
  }

  /** A sound fixture passes the writer's checks and the reader's. */
  lemma {:induction false} SoundIsWellFormed(f: Fixture)
    requires Sound(f)
    ensures WellFormed(f) && Writable(f)
  {
    hide SectionsOf, ContentsOf;
    assert SectionsOf(HeaderOf(f)).ok(ContentsOf(f)) by {
      SectionsAreOk(f);
    }
    forall r | r in f.resources
      ensures ResourceWritable(r)
    {
      SmallFits(r.stride);
    }
    assert HeaderOk(HeaderOf(f));
  }

  lemma {:induction false} EachOfMap<A, T>(c: Layout<T>, xs: seq<A>, f: A -> T)
    requires AllOk(c, Map(xs, f))
    ensures forall x :: x in xs ==> c.ok(f(x))
  {
    forall x | x in xs
      ensures c.ok(f(x))
    {
      var i :| 0 <= i < |xs| && xs[i] == x;
      assert c.ok(Map(xs, f)[i]);
    }
  }

  lemma {:induction false} MeshIsSound(m: Mesh, shaders: nat)
    requires Meshes(shaders).ok(MeshItemOf(m))
    ensures MeshSound(m, shaders)
  {
    hide Fits;
    assert AllOk(Elements(), Map(m.layout, ElementItemOf));
    EachOfMap(Elements(), m.layout, ElementItemOf);
    forall e | e in m.layout
      ensures ElementWritable(e) && e.semantic != []
    {
      assert Elements().ok(ElementItemOf(e));
    }
  }

  lemma {:induction false} FrameIsSound(f: Frame, geometries: nat, resources: nat)
    requires Frames(geometries, resources).ok(FrameItemOf(f))
    ensures FrameSound(f, geometries, resources)
  {
    hide Fits;
    assert AllOk(Outputs(geometries, resources), Map(f.draws, OutputItemOf));
    EachOfMap(Outputs(geometries, resources), f.draws, OutputItemOf);
    forall o | o in f.draws
      ensures OutputSound(o, geometries, resources)
    {
      assert Outputs(geometries, resources).ok(OutputItemOf(o));
    }
  }

  lemma {:induction false} BlobsAreSound(f: Fixture)
    requires AllOk(Shaders(), Map(f.shaders, ShaderItemOf)) && AllOk(Resources(), Map(f.resources, ResourceItemOf))
    ensures forall x :: x in f.shaders ==> ShaderWritable(x) && x.data != []
    ensures forall x :: x in f.resources ==> ResourceSound(x)
  {
    hide Fits;
    EachOfMap(Shaders(), f.shaders, ShaderItemOf);
    EachOfMap(Resources(), f.resources, ResourceItemOf);
    forall x | x in f.shaders
      ensures ShaderWritable(x) && x.data != []
    {
      assert Shaders().ok(ShaderItemOf(x));
    }
    forall x | x in f.resources
      ensures ResourceSound(x)
    {
      assert Resources().ok(ResourceItemOf(x));
    }
  }

  lemma {:induction false} WellFormedIsSound(f: Fixture)
    requires WellFormed(f)
    ensures Sound(f)
  {
    hide Meshes, Frames, Shaders, Resources, MeshItemOf, FrameItemOf, ShaderItemOf, ResourceItemOf, MeshSound,
      FrameSound, ResourceSound, ShaderWritable, AllOk, Fits;
    FileParts(FileOf(f));
    var meshes, frames := Meshes(|f.shaders|), Frames(|f.meshes|, |f.resources|);
    BlobsAreSound(f);
    EachOfMap(meshes, f.meshes, MeshItemOf);
    EachOfMap(frames, f.frames, FrameItemOf);
    forall m | m in f.meshes
      ensures MeshSound(m, |f.shaders|)
    {
      MeshIsSound(m, |f.shaders|);
    }
    forall r | r in f.frames
      ensures FrameSound(r, |f.meshes|, |f.resources|) && |r.draws| <= MAX_DRAWS
    {
      FrameIsSound(r, |f.meshes|, |f.resources|);
      FewDraws(r, |f.meshes|, |f.resources|);
    }
  }

  lemma FewDraws(r: Frame, geometries: nat, resources: nat)
    requires FrameSound(r, geometries, resources)
    ensures |r.draws| <= MAX_DRAWS
  {
  }

  /** The reader asks for neither more nor less, so it accepts nothing the writer refuses. */
  lemma {:induction false} WellFormedIffSound(f: Fixture)
    ensures WellFormed(f) <==> Sound(f)
  {
    hide WellFormed, Sound, Writable;
    if WellFormed(f) {
      WellFormedIsSound(f);
    }
    if Sound(f) {
      SoundIsWellFormed(f);
    }
  }

  // ---------------------------------------------------------------- soundness in numbers

  lemma WordsFit(words: seq<nat>, n: nat)
    ensures Fits(Of(n, 4), words) <==> |words| == n && forall i: nat :: i < n ==> words[i] < 0x1_0000_0000
  {
    SpanOfFour();
    assert forall i: nat :: i < n ==> Of(n, 4)[i] == 4;
  }

  lemma LongFits(v: nat)
    ensures Fits([8], [v]) <==> v < 0x1_0000_0000_0000_0000
  {
    SpanOfFour();
    assert Span(7) == 256 * (256 * (256 * Span(4)));
    assert Span(8) == 0x1_0000_0000_0000_0000;
    assert [8][0] == 8 && [v][0] == v;
  }

  lemma {:induction false} ElementInNumbersIff(e: Element)
    ensures ElementWritable(e) && e.semantic != [] <==> ElementInNumbers(e)
  {
    hide Span, Fits;
    var w := ElementItemOf(e).1;
    assert U32x6 == Of(6, 4);
    WordsFit(w, 6);
    AsciiIff(e.semantic);
    assert (forall i: nat :: i < 6 ==> w[i] < 0x1_0000_0000) <==>
           (w[0] < 0x1_0000_0000 && w[1] < 0x1_0000_0000 && w[2] < 0x1_0000_0000 && w[3] < 0x1_0000_0000 &&
            w[4] < 0x1_0000_0000 && w[5] < 0x1_0000_0000);
  }

  lemma {:induction false} AsciiIff(s: string)
    ensures AsciiBytes(Ascii(s)) <==> forall c :: c in s ==> c < 128 as char
  {
    forall i: nat | i < |s|
      ensures Ascii(s)[i] < 128 <==> s[i] < 128 as char
    {
    }
    if forall c :: c in s ==> c < 128 as char {
      forall i: nat | i < |s|
        ensures Ascii(s)[i] < 128
      {
        assert s[i] in s;
      }
    }
    if AsciiBytes(Ascii(s)) {
      forall c | c in s
        ensures c < 128 as char
      {
        var i: nat :| i < |s| && s[i] == c;
        assert Ascii(s)[i] < 128;
      }
    }
  }

  lemma {:induction false} MeshInNumbersIff(m: Mesh, shaders: nat)
    requires shaders <= MAX_SHADERS
    ensures MeshSound(m, shaders) <==> MeshInNumbers(m) && m.shader < shaders
  {
    hide Span, Fits, ElementWritable, ElementInNumbers;
    var w := MeshItemOf(m).0;
    assert U32x4 == Of(4, 4);
    WordsFit(w, 4);
    forall e | e in m.layout
      ensures ElementWritable(e) && e.semantic != [] <==> ElementInNumbers(e)
    {
      ElementInNumbersIff(e);
    }
    assert (forall i: nat :: i < 4 ==> w[i] < 0x1_0000_0000) <==>
           (w[0] < 0x1_0000_0000 && w[1] < 0x1_0000_0000 && w[2] < 0x1_0000_0000 && w[3] < 0x1_0000_0000);
  }

  lemma {:induction false} OutputInNumbersIff(o: Output, geometries: nat, resources: nat)
    requires geometries <= MAX_GEOMETRIES && resources <= MAX_RESOURCES
    ensures OutputSound(o, geometries, resources) <==>
      OutputInNumbers(o) && o.geometry < geometries && o.pool < resources && o.bones < resources
  {
    hide Span, Fits;
    var w := OutputItemOf(o).0;
    assert U32x4 == Of(4, 4);
    WordsFit(w, 4);
    assert (forall i: nat :: i < 4 ==> w[i] < 0x1_0000_0000) <==>
           (w[0] < 0x1_0000_0000 && w[1] < 0x1_0000_0000 && w[2] < 0x1_0000_0000 && w[3] < 0x1_0000_0000);
  }

  lemma {:induction false} FrameInNumbersIff(f: Frame, geometries: nat, resources: nat)
    requires geometries <= MAX_GEOMETRIES && resources <= MAX_RESOURCES
    ensures FrameSound(f, geometries, resources) <==>
      f.original < 0x1_0000_0000 && |f.draws| <= 64 && forall o :: o in f.draws ==>
        OutputInNumbers(o) && o.geometry < geometries && o.pool < resources && o.bones < resources
  {
    hide Span, Fits, OutputSound, OutputWritable, OutputInNumbers;
    var w := FrameItemOf(f).0;
    assert U32x2 == Of(2, 4);
    WordsFit(w, 2);
    assert (forall i: nat :: i < 2 ==> w[i] < 0x1_0000_0000) <==> w[0] < 0x1_0000_0000 && w[1] < 0x1_0000_0000;
    forall o | o in f.draws
      ensures OutputSound(o, geometries, resources) <==>
        OutputInNumbers(o) && o.geometry < geometries && o.pool < resources && o.bones < resources
      ensures OutputSound(o, geometries, resources) ==> OutputWritable(o)
    {
      OutputInNumbersIff(o, geometries, resources);
      if OutputSound(o, geometries, resources) {
        SoundIsWritable(o, geometries, resources);
      }
    }
  }

  lemma SoundIsWritable(o: Output, geometries: nat, resources: nat)
    requires OutputSound(o, geometries, resources)
    ensures OutputWritable(o)
  {
  }

  /** What the writer and the reader together ask of a fixture, in numbers. */
  lemma {:induction false} SoundInNumbersIff(f: Fixture)
    ensures Sound(f) <==> SoundInNumbers(f)
  {
    hide Fits, MeshSound, FrameSound, MeshInNumbers, OutputInNumbers;
    var w := HeaderOf(f);
    if |f.shaders| <= MAX_SHADERS && |f.meshes| <= MAX_GEOMETRIES && |f.resources| <= MAX_RESOURCES {
      assert U32x7 == Of(7, 4);
      WordsFit(w, 7);
      assert |f.frames| <= MAX_FRAMES ==> ((forall i: nat :: i < 7 ==> w[i] < 0x1_0000_0000) <==>
             (w[1] < 0x1_0000_0000 && w[2] < 0x1_0000_0000));
      forall s | s in f.shaders
        ensures ShaderWritable(s) <==> s.hash < 0x1_0000_0000_0000_0000 && |s.data| <= MAX_RESOURCE
      {
        LongFits(s.hash);
      }
      forall m | m in f.meshes
        ensures MeshSound(m, |f.shaders|) <==> MeshInNumbers(m) && m.shader < |f.shaders|
      {
        MeshInNumbersIff(m, |f.shaders|);
      }
      forall r | r in f.frames
        ensures FrameSound(r, |f.meshes|, |f.resources|) <==> FrameInNumbers(f, r)
      {
        FrameInNumbersIff(r, |f.meshes|, |f.resources|);
      }
    }
  }
}
