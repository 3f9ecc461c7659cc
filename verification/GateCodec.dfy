/**
 The EDVRGATE file of tools/cull_gate_probe.py, versions 1 to 3: the reader, the writer, and the proof that
 they are inverse. Floats are their 32-bit patterns.
 */
module GateCodec {
  import opened Prelude
  import opened Bytes
  import opened Parsing

  datatype GateError =
    | Truncated | NotAGateFile | UnsupportedVersion | InvalidDumpCount | InvalidViewCount | InvalidPlaneCount
    | TableRecordedTwice | MissingEndMarker | TrailingBytes
    | BuilderEntriesOutOfRange | EntrySubItemsOutOfRange | PartBuilderOutOfRange

  const MAGIC: seq<byte> := [0x45, 0x44, 0x56, 0x52, 0x47, 0x41, 0x54, 0x45]
  const END: seq<byte> := [0x45, 0x44, 0x56, 0x45]
  const VIEW_BYTES: nat := 0x6A0
  const TABLE_BYTES: nat := 0x80
  const NO_ROW: nat := 0xFFFF_FFFF

  /** The most dumps in a file, views in a dump and planes in a view. */
  datatype Limits = Limits(dumps: nat, views: nat, planes: nat)

  /** Those of the reader. */
  const READER: Limits := Limits(16, 64, 32)

  /** Those of the writer: only what a 32-bit count can say. */
  const WRITER: Limits := Limits(MAX_COUNT, MAX_COUNT, MAX_COUNT)

  // ---------------------------------------------------------------- the file's contents

  datatype View = View(planes: seq<seq<nat>>, raw: seq<byte>)

  datatype Dump = Dump(ctx: nat, frame: nat, lodScale: nat, faults: nat, bitTable: seq<nat>, views: seq<View>)

  datatype Test = Test(record: nat, ctx: nat, frame: nat, lod: nat, view: nat, passed: nat, flags: nat)

  datatype Builder = Builder(
    record: nat, pose: nat, ctx: nat, node: nat, activeMask: nat, recMask: nat,
    nibbles: seq<nat>, bitOk: nat, frustumPass: nat, frustumInside: nat, visApplies: nat,
    position: seq<nat>, quat: seq<nat>, vectors: seq<nat>,
    frame: nat, viewCount: nat, flags: nat, entryCount: nat, entryFirst: nat, entriesCopied: nat)

  /** spheres holds the model centre and sphere from version 2 on, and is empty before. */
  datatype Entry = Entry(model: nat, subCount: nat, subFirst: nat, subCopied: nat, spheres: seq<nat>)

  datatype Part = Part(
    pose: nat, subItem: nat, viewBits: nat, lodTable: nat, centre: seq<nat>, radius: nat,
    frame: nat, builder: nat, entry: nat, sub: nat, lod: nat, view: nat, passed: nat, flags: nat)

  datatype LodTable = LodTable(table: nat, model: nat, flags: nat, raw: seq<nat>)

  datatype Gate = Gate(
    version: nat, first: nat, last: nat, flags: nat, visGlobal: nat, counts: seq<nat>, dumps: seq<Dump>,
    tests: seq<Test>, builders: seq<Builder>, entries: seq<Entry>, subs: seq<seq<nat>>,
    parts: seq<Part>, tables: seq<LodTable>)

  // ---------------------------------------------------------------- record layouts

  const FOUR_FLOATS: Format := [4, 4, 4, 4]
  const HEADER: Format := [4, 4, 4, 4]
  const DUMP: Format := [8, 4, 4, 4, 4] + Of(64, 4)
  const TEST: Format := [8, 8, 4, 4, 2, 1, 1]
  const BUILDER: Format := Of(14, 8) + Of(3, 4) + Of(8, 1) + Of(32, 4) + Of(6, 4)
  const SUB: Format := Of(8, 4)
  const TABLE: Format := [8, 8, 4] + Of(TABLE_BYTES, 1)

  /** Twelve counters, then six per-part ones from version 2 and two table ones from version 3. */
  function Counters(version: nat): Format {
    Of(12 + (if version >= 2 then 6 else 0) + (if version >= 3 then 2 else 0), 4)
  }

  function EntryRecord(version: nat): Format {
    [8, 4, 4, 4] + if version >= 2 then Of(8, 4) else []
  }

  function PartRecord(version: nat): Format {
    [8, 8, 8] + (if version >= 3 then [8] else []) + [4, 4, 4, 4] + [4, 4, 4, 4, 4, 2, 1, 1]
  }

  function TestWords(x: Test): seq<nat> {
    [x.record, x.ctx, x.frame, x.lod, x.view, x.passed, x.flags]
  }

  /** Fields i up to j of a record. */
  function Slice(w: seq<nat>, i: nat, j: nat): seq<nat> {
    if i <= j <= |w| then w[i..j] else []
  }

  function TestOf(w: seq<nat>): Test {
    Test(At(w, 0), At(w, 1), At(w, 2), At(w, 3), At(w, 4), At(w, 5), At(w, 6))
  }

  function BuilderWords(b: Builder): seq<nat> {
    [b.record, b.pose, b.ctx, b.node, b.activeMask, b.recMask] + b.nibbles +
    [b.bitOk, b.frustumPass, b.frustumInside, b.visApplies] + b.position + b.quat + b.vectors +
    [b.frame, b.viewCount, b.flags, b.entryCount, b.entryFirst, b.entriesCopied]
  }

  function BuilderOf(w: seq<nat>): Builder {
    Builder(At(w, 0), At(w, 1), At(w, 2), At(w, 3), At(w, 4), At(w, 5), Slice(w, 6, 10),
            At(w, 10), At(w, 11), At(w, 12), At(w, 13), Slice(w, 14, 17), Slice(w, 17, 25), Slice(w, 25, 57),
            At(w, 57), At(w, 58), At(w, 59), At(w, 60), At(w, 61), At(w, 62))
  }

  predicate BuilderShape(b: Builder) {
    |b.nibbles| == 4 && |b.position| == 3 && |b.quat| == 8 && |b.vectors| == 32
  }

  function EntryWords(e: Entry): seq<nat> {
    [e.model, e.subCount, e.subFirst, e.subCopied] + e.spheres
  }

  function EntryOf(w: seq<nat>): Entry {
    Entry(At(w, 0), At(w, 1), At(w, 2), At(w, 3), Slice(w, 4, |w|))
  }

  function PartWords(version: nat, p: Part): seq<nat> {
    [p.pose, p.subItem, p.viewBits] + (if version >= 3 then [p.lodTable] else []) + p.centre + [p.radius] +
    [p.frame, p.builder, p.entry, p.sub, p.lod, p.view, p.passed, p.flags]
  }

  function PartOf(version: nat, w: seq<nat>): Part {
    var k := if version >= 3 then 4 else 3;
    Part(At(w, 0), At(w, 1), At(w, 2), if version >= 3 then At(w, 3) else 0, Slice(w, k, k + 3), At(w, k + 3),
         At(w, k + 4),
         At(w, k + 5), At(w, k + 6), At(w, k + 7), At(w, k + 8), At(w, k + 9), At(w, k + 10), At(w, k + 11))
  }

  predicate PartShape(version: nat, p: Part) {
    |p.centre| == 3 && (version < 3 ==> p.lodTable == 0)
  }

  function LodTableWords(t: LodTable): seq<nat> {
    [t.table, t.model, t.flags] + t.raw
  }

  function LodTableOf(w: seq<nat>): LodTable {
    LodTable(At(w, 0), At(w, 1), At(w, 2), Slice(w, 3, |w|))
  }

  function DumpWords(d: Dump): seq<nat> {
    [d.ctx, d.frame, |d.views|, d.lodScale, d.faults] + d.bitTable
  }

  function DumpOf(w: seq<nat>, views: seq<View>): Dump {
    Dump(At(w, 0), At(w, 1), At(w, 3), At(w, 4), Slice(w, 5, |w|), views)
  }

  // ---------------------------------------------------------------- the format

  function Record(fmt: Format): Codec<seq<nat>, GateError> { Words(fmt, Truncated) }

  /** A counted table; no 32-bit count is too large for one. */
  function Table<T>(c: Codec<T, GateError>): Codec<seq<T>, GateError> { Counted(c, 0, MAX_COUNT, Truncated, Truncated) }

  function Planes(max: nat): Codec<seq<seq<nat>>, GateError> {
    Counted(Record(FOUR_FLOATS), 0, max, Truncated, InvalidPlaneCount)
  }

  function ParseView(max: nat, s: seq<byte>): Parsed<View, GateError> {
    var (planes, s) :- ParseCounted(Record(FOUR_FLOATS), 0, max, Truncated, InvalidPlaneCount, s);
    var (raw, s) :- ParseRaw(VIEW_BYTES, Truncated, s);
    Ok((View(planes, raw), s))
  }

  function Views(max: nat): Codec<View, GateError> {
    Codec(s => ParseView(max, s), (v: View) => Planes(max).ok(v.planes) && |v.raw| == VIEW_BYTES,
          (v: View) => Planes(max).write(v.planes) + v.raw)
  }

  /** A dump's head, whose third field counts the views, and the views. */
  function ParseDump(fmt: Format, views: Codec<View, GateError>, max: nat, s: seq<byte>): Parsed<Dump, GateError> {
    var (w, s) :- ParseWords(fmt, Truncated, s);
    if At(w, 2) > max then Err(InvalidViewCount)
    else
      var (vs, s) :- ParseMany(views, At(w, 2), s);
      Ok((DumpOf(w, vs), s))
  }

  function Dumps(fmt: Format, views: Codec<View, GateError>, max: nat): Codec<Dump, GateError> {
    Codec(s => ParseDump(fmt, views, max, s),
          d => Fits(fmt, DumpWords(d)) && |d.views| <= max && AllOk(views, d.views),
          d => PackAll(fmt, DumpWords(d)) + WriteMany(views, d.views))
  }

  function DumpList(l: Limits): Codec<seq<Dump>, GateError> {
    Counted(Dumps(DUMP, Views(l.planes), l.views), 0, l.dumps, Truncated, InvalidDumpCount)
  }

  function Tests(): Codec<Test, GateError> {
    As(Record(TEST), TestOf, TestWords, (x: Test) => true)
  }

  function Builders(): Codec<Builder, GateError> {
    As(Record(BUILDER), BuilderOf, BuilderWords, BuilderShape)
  }

  function Entries(version: nat): Codec<Entry, GateError> {
    As(Record(EntryRecord(version)), EntryOf, EntryWords, (e: Entry) => true)
  }

  function Parts(version: nat): Codec<Part, GateError> {
    As(Record(PartRecord(version)), w => PartOf(version, w), p => PartWords(version, p), p => PartShape(version, p))
  }

  function LodTables(): Codec<LodTable, GateError> {
    As(Record(TABLE), LodTableOf, LodTableWords, (t: LodTable) => true)
  }

  type Tail = (seq<Test>, (seq<Builder>, (seq<Entry>, (seq<seq<nat>>, (seq<Part>, seq<LodTable>)))))
  type Body = (seq<nat>, (seq<nat>, (seq<Dump>, Tail)))

  /** The sections after the dumps. */
  function TailOf(version: nat): Codec<Tail, GateError> {
    Both(Table(Tests()), Both(Table(Builders()), Both(Table(Entries(version)), Both(Table(Record(SUB)),
      Both(Optional(version >= 2, Table(Parts(version))), Optional(version >= 3, Table(LodTables())))))))
  }

  /** Everything between the version and the end marker. */
  function BodyWithin(l: Limits, version: nat): Codec<Body, GateError> {
    Both(Record(HEADER), Both(Record(Counters(version)), Both(DumpList(l), TailOf(version))))
  }

  /** As the reader takes it. */
  function BodyOf(version: nat): Codec<Body, GateError> { BodyWithin(READER, version) }

  /** As the writer gives it. */
  function WideBody(version: nat): Codec<Body, GateError> { BodyWithin(WRITER, version) }

  function Sections(g: Gate): Body {
    ([g.first, g.last, g.flags, g.visGlobal], (g.counts, (g.dumps, (g.tests, (g.builders, (g.entries, (g.subs,
        (g.parts, g.tables))))))))
  }

  function GateOf(version: nat, b: Body): Gate {
    var (head, b) := b;
    var (counts, b) := b;
    var (dumps, b) := b;
    var (tests, b) := b;
    var (builders, b) := b;
    var (entries, b) := b;
    var (subs, b) := b;
    Gate(version, At(head, 0), At(head, 1), At(head, 2), At(head, 3), counts, dumps, tests, builders, entries, subs,
      b.0, b.1)
  }

  // ---------------------------------------------------------------- checks over the whole file

  predicate BuilderInRange(b: Builder, entries: nat) {
    b.entriesCopied == 0 || b.entryFirst + b.entriesCopied <= entries
  }

  predicate EntryInRange(e: Entry, subs: nat) {
    e.subCopied == 0 || e.subFirst + e.subCopied <= subs
  }

  predicate PartInRange(p: Part, builders: nat) {
    p.builder == NO_ROW || p.builder < builders
  }

  predicate DistinctTables(tables: seq<LodTable>) {
    forall i, j :: 0 <= i < j < |tables| ==> tables[i].table != tables[j].table
  }

  predicate ReferencesInRange(g: Gate) {
    (forall i :: 0 <= i < |g.builders| ==> BuilderInRange(g.builders[i], |g.entries|)) &&
    (forall i :: 0 <= i < |g.entries| ==> EntryInRange(g.entries[i], |g.subs|)) &&
    (forall i :: 0 <= i < |g.parts| ==> PartInRange(g.parts[i], |g.builders|))
  }

  predicate Laid(layout: nat -> Codec<Body, GateError>, g: Gate) {
    g.version in {1, 2, 3} && layout(g.version).ok(Sections(g))
  }

  /** Every field has the width its version's layout gives it. */
  predicate Packable(g: Gate) {
    Laid(WideBody, g)
  }

  /** And no list has more items than the reader takes. */
  predicate Encodable(g: Gate) {
    Laid(BodyOf, g)
  }

  predicate WellFormed(g: Gate) {
    Encodable(g) && ReferencesInRange(g) && DistinctTables(g.tables)
  }

  function Finish(g: Gate, s: seq<byte>): Result<Gate, GateError> {
    if !DistinctTables(g.tables) then Err(TableRecordedTwice)
    else
      var (end, s) :- ParseRaw(4, Truncated, s);
      if end != END then Err(MissingEndMarker)
      else if s != [] then Err(TrailingBytes)
      else if exists i :: 0 <= i < |g.builders| && !BuilderInRange(g.builders[i], |g.entries|)
        then Err(BuilderEntriesOutOfRange)
      else if exists i :: 0 <= i < |g.entries| && !EntryInRange(g.entries[i], |g.subs|)
        then Err(EntrySubItemsOutOfRange)
      else if exists i :: 0 <= i < |g.parts| && !PartInRange(g.parts[i], |g.builders|) then Err(PartBuilderOutOfRange)
      else Ok(g)
  }

  /** The magic and the version. */
  function ParseHeader(data: seq<byte>): Parsed<nat, GateError> {
    var (magic, s) :- ParseRaw(8, Truncated, data);
    if magic != MAGIC then Err(NotAGateFile)
    else
      var (version, s) :- ParseWords([4], Truncated, s);
      if At(version, 0) !in {1, 2, 3} then Err(UnsupportedVersion) else Ok((At(version, 0), s))
  }

  function ParseSections(c: Codec<Body, GateError>, version: nat, s: seq<byte>): Result<Gate, GateError> {
    var (body, s) :- c.parse(s);
    Finish(GateOf(version, body), s)
  }

  /** The whole file, for any layout of the sections by version. */
  function ParseFile(layout: nat -> Codec<Body, GateError>, data: seq<byte>): Result<Gate, GateError> {
    var (version, s) :- ParseHeader(data);
    ParseSections(layout(version), version, s)
  }

  function PackFile(layout: nat -> Codec<Body, GateError>, g: Gate): seq<byte> {
    MAGIC + PackAll([4], [g.version]) + layout(g.version).write(Sections(g)) + END
  }

  function ParseGate(data: seq<byte>): Result<Gate, GateError> { ParseFile(BodyOf, data) }

  function PackGate(g: Gate): seq<byte> { PackFile(BodyOf, g) }

  // ---------------------------------------------------------------- every section is read exactly as written

  lemma ViewsExact(max: nat)
    requires max <= MAX_COUNT
    ensures Exact(Views(max))
  {
    hide ParseCounted, ParseRaw, PackAll, WriteMany, AllOk;
    var planes, raw := Planes(max), Raw(VIEW_BYTES, Truncated);
    WordsExact(FOUR_FLOATS, Truncated);
    CountedExact(Record(FOUR_FLOATS), 0, max, Truncated, InvalidPlaneCount);
    RawExact(VIEW_BYTES, Truncated);
    BothExact(planes, raw);
    forall v: View, rest
      ensures Reads(Views(max), v, rest)
    {
      assert Reads(Both(planes, raw), (v.planes, v.raw), rest);
    }
    forall s
      ensures Accepts(Views(max), s)
    {
      assert Accepts(Both(planes, raw), s);
    }
  }

  lemma {:induction false} DumpJoins(fmt: Format, views: Codec<View, GateError>, max: nat, w: seq<nat>, vs: seq<View>,
      rest: seq<byte>)
    requires Exact(views) && Fits(fmt, w) && |vs| == At(w, 2) <= max && AllOk(views, vs)
    ensures ParseDump(fmt, views, max, PackAll(fmt, w) + WriteMany(views, vs) + rest) == Ok((DumpOf(w, vs), rest))
  {
    hide PackAll, ParseMany, WriteMany, ParseWords;
    var tail := WriteMany(views, vs) + rest;
    WordsExact(fmt, Truncated);
    assert Reads(Words(fmt, Truncated), w, tail);
    ManyForward(views, vs, rest);
    assert PackAll(fmt, w) + WriteMany(views, vs) + rest == PackAll(fmt, w) + tail;
  }

  lemma {:induction false} DumpReads(fmt: Format, views: Codec<View, GateError>, max: nat, d: Dump, rest: seq<byte>)
    requires Exact(views)
    ensures Reads(Dumps(fmt, views, max), d, rest)
  {
    if Dumps(fmt, views, max).ok(d) {
      var w := DumpWords(d);
      assert DumpOf(w, d.views) == d && At(w, 2) == |d.views|;
      DumpJoins(fmt, views, max, w, d.views, rest);
    }
  }

  lemma {:induction false} DumpAccepts(fmt: Format, views: Codec<View, GateError>, max: nat, s: seq<byte>)
    requires |fmt| >= 5 && Exact(views)
    ensures Accepts(Dumps(fmt, views, max), s)
  {
    hide PackAll, ParseMany, WriteMany, ParseWords;
    if ParseDump(fmt, views, max, s).Ok? {
      WordsExact(fmt, Truncated);
      assert Accepts(Words(fmt, Truncated), s);
      var (w, tail) := ParseWords(fmt, Truncated, s).value;
      ManyBack(views, At(w, 2), tail);
      var (vs, rest) := ParseMany(views, At(w, 2), tail).value;
      assert DumpWords(DumpOf(w, vs)) == w;
      assert PackAll(fmt, w) + (WriteMany(views, vs) + rest) == PackAll(fmt, w) + WriteMany(views, vs) + rest;
    }
  }

  lemma DumpsExact(fmt: Format, views: Codec<View, GateError>, max: nat)
    requires |fmt| >= 5 && Exact(views)
    ensures Exact(Dumps(fmt, views, max))
  {
    forall d, rest ensures Reads(Dumps(fmt, views, max), d, rest) { DumpReads(fmt, views, max, d, rest); }
    forall s ensures Accepts(Dumps(fmt, views, max), s) { DumpAccepts(fmt, views, max, s); }
  }

  /** A record is read exactly when its datatype and its fields determine each other. */
  lemma RecordExact<T(!new)>(fmt: Format, of: seq<nat> -> T, words: T -> seq<nat>, shape: T -> bool)
    requires forall w :: |w| == |fmt| ==> shape(of(w)) && words(of(w)) == w
    requires forall x :: shape(x) && |words(x)| == |fmt| ==> of(words(x)) == x
    ensures Exact(As(Record(fmt), of, words, shape))
  {
    WordsExact(fmt, Truncated);
    AsExact(Record(fmt), of, words, shape);
  }

  lemma TestsExact()
    ensures Exact(Tests())
  {
    RecordExact(TEST, TestOf, TestWords, (x: Test) => true);
  }

  lemma {:induction false} BuilderFromWords(w: seq<nat>)
    requires |w| == |BUILDER|
    ensures BuilderShape(BuilderOf(w)) && BuilderWords(BuilderOf(w)) == w
  {
    assert w == w[..6] + w[6..10] + w[10..14] + w[14..17] + w[17..25] + w[25..57] + w[57..];
  }

  lemma BuilderToWords(b: Builder)
    requires BuilderShape(b)
    ensures BuilderOf(BuilderWords(b)) == b
  {
    var v := BuilderWords(b);
    assert v[6..10] == b.nibbles && v[14..17] == b.position && v[17..25] == b.quat && v[25..57] == b.vectors;
  }

  lemma BuildersExact()
    ensures Exact(Builders())
  {
    forall w: seq<nat> | |w| == |BUILDER| { BuilderFromWords(w); }
    forall b | BuilderShape(b) { BuilderToWords(b); }
    RecordExact(BUILDER, BuilderOf, BuilderWords, BuilderShape);
  }

  lemma EntriesExact(version: nat)
    ensures Exact(Entries(version))
  {
    RecordExact(EntryRecord(version), EntryOf, EntryWords, (e: Entry) => true);
  }

  lemma {:induction false} PartFromWords(version: nat, w: seq<nat>)
    requires |w| == |PartRecord(version)|
    ensures PartShape(version, PartOf(version, w)) && PartWords(version, PartOf(version, w)) == w
  {
    var k := if version >= 3 then 4 else 3;
    assert w == w[..k] + w[k..k + 3] + w[k + 3..];
  }

  lemma PartToWords(version: nat, p: Part)
    requires PartShape(version, p)
    ensures PartOf(version, PartWords(version, p)) == p
  {
    var v := PartWords(version, p);
    if version >= 3 {
      assert v[4..7] == p.centre;
    } else {
      assert v[3..6] == p.centre;
    }
  }

  lemma PartsExact(version: nat)
    ensures Exact(Parts(version))
  {
    forall w: seq<nat> | |w| == |PartRecord(version)| { PartFromWords(version, w); }
    forall p | PartShape(version, p) { PartToWords(version, p); }
    RecordExact(PartRecord(version), w => PartOf(version, w), p => PartWords(version, p), p => PartShape(version, p));
  }

  lemma LodTablesExact()
    ensures Exact(LodTables())
  {
    RecordExact(TABLE, LodTableOf, LodTableWords, (t: LodTable) => true);
  }

  lemma TailExact(version: nat)
    ensures Exact(TailOf(version))
  {
    var tests, builders, entries, subs :=
      Table(Tests()), Table(Builders()), Table(Entries(version)), Table(Record(SUB));
    var parts, tables := Optional(version >= 2, Table(Parts(version))), Optional(version >= 3, Table(LodTables()));
    TestsExact();
    CountedExact(Tests(), 0, MAX_COUNT, Truncated, Truncated);
    BuildersExact();
    CountedExact(Builders(), 0, MAX_COUNT, Truncated, Truncated);
    EntriesExact(version);
    CountedExact(Entries(version), 0, MAX_COUNT, Truncated, Truncated);
    WordsExact(SUB, Truncated);
    CountedExact(Record(SUB), 0, MAX_COUNT, Truncated, Truncated);
    PartsExact(version);
    CountedExact(Parts(version), 0, MAX_COUNT, Truncated, Truncated);
    OptionalExact(version >= 2, Table(Parts(version)));
    LodTablesExact();
    CountedExact(LodTables(), 0, MAX_COUNT, Truncated, Truncated);
    OptionalExact(version >= 3, Table(LodTables()));
    BothExact(parts, tables);
    BothExact(subs, Both(parts, tables));
    BothExact(entries, Both(subs, Both(parts, tables)));
    BothExact(builders, Both(entries, Both(subs, Both(parts, tables))));
    BothExact(tests, Both(builders, Both(entries, Both(subs, Both(parts, tables)))));
  }

  predicate Wide(l: Limits) { l.dumps <= MAX_COUNT && l.planes <= MAX_COUNT }

  lemma DumpListExact(l: Limits)
    requires Wide(l)
    ensures Exact(DumpList(l))
  {
    ViewsExact(l.planes);
    DumpsExact(DUMP, Views(l.planes), l.views);
    CountedExact(Dumps(DUMP, Views(l.planes), l.views), 0, l.dumps, Truncated, InvalidDumpCount);
  }

  lemma BodyExact(l: Limits, version: nat)
    requires Wide(l)
    ensures Exact(BodyWithin(l, version))
  {
    var head, counts, dumps, tail := Record(HEADER), Record(Counters(version)), DumpList(l), TailOf(version);
    WordsExact(HEADER, Truncated);
    WordsExact(Counters(version), Truncated);
    DumpListExact(l);
    TailExact(version);
    BothExact(dumps, tail);
    BothExact(counts, Both(dumps, tail));
    BothExact(head, Both(counts, Both(dumps, tail)));
  }

  // ---------------------------------------------------------------- the whole file

  lemma {:induction false} HeaderForward(version: nat, rest: seq<byte>)
    requires version in {1, 2, 3}
    ensures ParseHeader(MAGIC + PackAll([4], [version]) + rest) == Ok((version, rest))
  {
    hide PackAll, UnpackAll;
    SpanOfFour();
    WordsExact([4], Truncated);
    assert Reads(Words([4], Truncated), [version], rest);
    var data := MAGIC + PackAll([4], [version]) + rest;
    assert data[..8] == MAGIC && data[8..] == PackAll([4], [version]) + rest;
  }

  lemma {:induction false} HeaderBack(data: seq<byte>)
    requires ParseHeader(data).Ok?
    ensures ParseHeader(data).value.0 in {1, 2, 3}
    ensures data == MAGIC + PackAll([4], [ParseHeader(data).value.0]) + ParseHeader(data).value.1
  {
    WordsExact([4], Truncated);
    assert Accepts(Words([4], Truncated), data[8..]);
    var (version, rest) := ParseWords([4], Truncated, data[8..]).value;
    assert version == [At(version, 0)];
    assert data == data[..8] + (PackAll([4], version) + rest);
  }

  lemma {:induction false} SectionsForward(c: Codec<Body, GateError>, g: Gate, ext: seq<byte>)
    requires Exact(c) && c.ok(Sections(g)) && ReferencesInRange(g) && DistinctTables(g.tables)
    ensures ParseSections(c, g.version, c.write(Sections(g)) + (END + ext)) == if ext == [] then Ok(g)
      else Err(TrailingBytes)
  {
    assert Reads(c, Sections(g), END + ext);
    assert (END + ext)[..4] == END && (END + ext)[4..] == ext;
    assert GateOf(g.version, Sections(g)) == g;
  }

  lemma SectionsOfGate(version: nat, body: Body)
    requires |body.0| == 4
    ensures Sections(GateOf(version, body)) == body
  {
    var (head, b1) := body;
    assert [At(head, 0), At(head, 1), At(head, 2), At(head, 3)] == head;
    var (counts, b2) := b1;
    var (dumps, b3) := b2;
    var (tests, b4) := b3;
    var (builders, b5) := b4;
    var (entries, b6) := b5;
    var (subs, b7) := b6;
    assert b7 == (b7.0, b7.1) && b6 == (subs, b7) && b5 == (entries, b6) && b4 == (builders, b5) && b3 == (tests, b4);
  }

  lemma {:induction false} SectionsBack(c: Codec<Body, GateError>, version: nat, s: seq<byte>)
    requires Exact(c) && ParseSections(c, version, s).Ok? && (forall b :: c.ok(b) ==> |b.0| == 4)
    ensures var g := ParseSections(c, version, s).value;
      g.version == version && c.ok(Sections(g)) && ReferencesInRange(g) && DistinctTables(g.tables) &&
      s == c.write(Sections(g)) + END
  {
    assert Accepts(c, s);
    var (body, rest) := c.parse(s).value;
    SectionsOfGate(version, body);
    assert rest == END;
  }

  ghost predicate ExactLayout(layout: nat -> Codec<Body, GateError>) {
    forall v :: Exact(layout(v)) && forall b: Body :: layout(v).ok(b) ==> |b.0| == 4
  }

  lemma {:induction false} FileForward(layout: nat -> Codec<Body, GateError>, g: Gate, ext: seq<byte>)
    requires ExactLayout(layout) && Laid(layout, g) && ReferencesInRange(g) && DistinctTables(g.tables)
    ensures ParseFile(layout, PackFile(layout, g) + ext) == if ext == [] then Ok(g) else Err(TrailingBytes)
  {
    var c := layout(g.version);
    var body := c.write(Sections(g));
    HeaderForward(g.version, body + (END + ext));
    SectionsForward(c, g, ext);
    assert PackFile(layout, g) + ext == MAGIC + PackAll([4], [g.version]) + (body + (END + ext));
  }

  lemma {:induction false} FileBack(layout: nat -> Codec<Body, GateError>, data: seq<byte>)
    requires ExactLayout(layout) && ParseFile(layout, data).Ok?
    ensures var g := ParseFile(layout, data).value;
      Laid(layout, g) && ReferencesInRange(g) && DistinctTables(g.tables) && PackFile(layout, g) == data
  {
    HeaderBack(data);
    var (version, s) := ParseHeader(data).value;
    SectionsBack(layout(version), version, s);
    var body := layout(version).write(Sections(ParseFile(layout, data).value));
    assert MAGIC + PackAll([4], [version]) + (body + END) == MAGIC + PackAll([4], [version]) + body + END;
  }

  lemma LayoutIsExact()
    ensures ExactLayout(BodyOf)
  {
    forall v
      ensures Exact(BodyOf(v)) && forall b: Body :: BodyOf(v).ok(b) ==> |b.0| == 4
    {
      BodyExact(READER, v);
    }
  }

  /** What is written is read back; anything after the end marker is refused. */
  lemma {:induction false} WrittenIsRead(g: Gate, ext: seq<byte>)
    requires WellFormed(g)
    ensures ParseGate(PackGate(g) + ext) == if ext == [] then Ok(g) else Err(TrailingBytes)
  {
    LayoutIsExact();
    FileForward(BodyOf, g, ext);
  }

  /** Only what is written is read: an accepted file encodes its own contents, whose references are in range. */
  lemma {:induction false} ReadIsWritten(data: seq<byte>)
    requires ParseGate(data).Ok?
    ensures WellFormed(ParseGate(data).value) && PackGate(ParseGate(data).value) == data
  {
    LayoutIsExact();
    FileBack(BodyOf, data);
  }

  lemma {:induction false} FileIsExact(layout: nat -> Codec<Body, GateError>, data: seq<byte>, g: Gate)
    requires ExactLayout(layout)
    ensures ParseFile(layout, data) == Ok(g) <==>
      Laid(layout, g) && ReferencesInRange(g) && DistinctTables(g.tables) && PackFile(layout, g) == data
  {
    if Laid(layout, g) && ReferencesInRange(g) && DistinctTables(g.tables) && PackFile(layout, g) == data {
      FileForward(layout, g, []);
      assert data + [] == data;
    }
    if ParseFile(layout, data) == Ok(g) {
      FileBack(layout, data);
    }
  }

  /** A file is accepted with contents g exactly when it is the encoding of a well-formed g. */
  lemma {:induction false} CodecIsExact(data: seq<byte>, g: Gate)
    ensures ParseGate(data) == Ok(g) <==> WellFormed(g) && PackGate(g) == data
  {
    hide ParseFile, PackFile, BodyOf, ReferencesInRange, DistinctTables;
    LayoutIsExact();
    FileIsExact(BodyOf, data, g);
  }

  /** No proper extension of an accepted file is accepted, and so no proper prefix of one. */
  lemma {:induction false} NoProperPrefix(data: seq<byte>, ext: seq<byte>)
    requires ext != []
    ensures ParseGate(data).Ok? ==> ParseGate(data + ext) == Err(TrailingBytes)
    ensures ParseGate(data + ext).Ok? ==> ParseGate(data).Err?
  {
    if ParseGate(data).Ok? {
      ReadIsWritten(data);
      WrittenIsRead(ParseGate(data).value, ext);
    }
  }

  // ---------------------------------------------------------------- what the reader makes of what is written

  lemma {:induction false} SameMany<T>(c: Codec<T, GateError>, d: Codec<T, GateError>, xs: seq<T>)
    requires forall i: nat :: i < |xs| ==> c.write(xs[i]) == d.write(xs[i])
    ensures WriteMany(c, xs) == WriteMany(d, xs)
  {
    if xs != [] {
      SameMany(c, d, xs[1..]);
    }
  }

  lemma {:induction false} SameView(l: nat, m: nat, v: View)
    ensures Views(l).write(v) == Views(m).write(v)
  {
    var bytes := PackAll([4], [|v.planes|]) + WriteMany(Record(FOUR_FLOATS), v.planes);
    assert Planes(l).write(v.planes) == bytes && Planes(m).write(v.planes) == bytes;
    assert Views(l).write(v) == bytes + v.raw && Views(m).write(v) == bytes + v.raw;
  }

  lemma {:induction false} SameDump(l: Limits, m: Limits, d: Dump)
    ensures Dumps(DUMP, Views(l.planes), l.views).write(d) == Dumps(DUMP, Views(m.planes), m.views).write(d)
  {
    hide PackAll, DumpWords;
    forall i: nat | i < |d.views|
      ensures Views(l.planes).write(d.views[i]) == Views(m.planes).write(d.views[i])
    {
      SameView(l.planes, m.planes, d.views[i]);
    }
    SameMany(Views(l.planes), Views(m.planes), d.views);
  }

  /** How much is written does not depend on the limits. */
  lemma {:induction false} SameWriting(l: Limits, m: Limits, version: nat, b: Body)
    ensures BodyWithin(l, version).write(b) == BodyWithin(m, version).write(b)
  {
    hide PackAll, Dumps, TailOf;
    forall i: nat | i < |b.1.1.0|
      ensures Dumps(DUMP, Views(l.planes), l.views).write(b.1.1.0[i]) ==
        Dumps(DUMP, Views(m.planes), m.views).write(b.1.1.0[i])
    {
      SameDump(l, m, b.1.1.0[i]);
    }
    SameMany(Dumps(DUMP, Views(l.planes), l.views), Dumps(DUMP, Views(m.planes), m.views), b.1.1.0);
  }

  /** What is packed says which version and sections it is of. */
  lemma {:induction false} PackedSections(g: Gate)
    requires Packable(g)
    ensures ParseHeader(PackGate(g)) == Ok((g.version, WideBody(g.version).write(Sections(g)) + END))
    ensures WideBody(g.version).parse(WideBody(g.version).write(Sections(g)) + END) == Ok((Sections(g), END))
  {
    hide BodyWithin, PackAll, ParseHeader, Sections;
    var body := WideBody(g.version).write(Sections(g));
    SameWriting(READER, WRITER, g.version, Sections(g));
    HeaderForward(g.version, body + END);
    assert PackGate(g) == MAGIC + PackAll([4], [g.version]) + (body + END);
    BodyExact(WRITER, g.version);
    assert Reads(WideBody(g.version), Sections(g), END);
  }

  lemma {:induction false} PackingSeparates(g: Gate, h: Gate)
    requires Packable(g) && Packable(h) && PackGate(g) == PackGate(h)
    ensures g == h
  {
    hide ParseHeader, PackGate, WideBody, Packable;
    PackedSections(g);
    PackedSections(h);
    assert Sections(g) == Sections(h);
    assert GateOf(g.version, Sections(g)) == g && GateOf(h.version, Sections(h)) == h;
  }

  lemma {:induction false} EncodableIsPackable(g: Gate)
    requires Encodable(g)
    ensures Packable(g)
  {
    hide TailOf;
    var dumps := g.dumps;
    assert AllOk(Dumps(DUMP, Views(READER.planes), READER.views), dumps);
    forall i | 0 <= i < |dumps|
      ensures Dumps(DUMP, Views(WRITER.planes), WRITER.views).ok(dumps[i])
    {
      DumpWidens(dumps[i]);
    }
    assert DumpList(WRITER).ok(dumps);
  }

  lemma {:induction false} DumpWidens(d: Dump)
    requires Dumps(DUMP, Views(READER.planes), READER.views).ok(d)
    ensures Dumps(DUMP, Views(WRITER.planes), WRITER.views).ok(d)
  {
    hide DumpWords;
    forall i | 0 <= i < |d.views|
      ensures Views(WRITER.planes).ok(d.views[i])
    {
      ViewWidens(d.views[i]);
    }
  }

  lemma {:induction false} ViewWidens(v: View)
    requires Views(READER.planes).ok(v)
    ensures Views(WRITER.planes).ok(v)
  {
    hide Record;
    assert Planes(READER.planes).ok(v.planes) && Planes(WRITER.planes).ok(v.planes);
  }

  /**
   What is written of any gate, with however many dumps, views and planes and whatever references, is read back as that
   gate if it is well-formed and refused otherwise; it is never read as another.
   */
  lemma {:induction false} ReadBackIff(g: Gate)
    requires Packable(g)
    ensures WellFormed(g) ==> ParseGate(PackGate(g)) == Ok(g)
    ensures !WellFormed(g) ==> ParseGate(PackGate(g)).Err?
  {
    hide Packable, Encodable, PackGate;
    if ParseGate(PackGate(g)).Ok? {
      var h := ParseGate(PackGate(g)).value;
      ReadIsWritten(PackGate(g));
      EncodableIsPackable(h);
      PackingSeparates(g, h);
    } else {
      CodecIsExact(PackGate(g), g);
    }
  }

  // ---------------------------------------------------------------- the reader

  method ReadView(st: Stream) returns (r: Result<View, GateError>)
    requires st.Valid()
    modifies st`pos
    ensures st.Valid()
    ensures ParseView(READER.planes, old(st.Rest())) == if r.Ok? then Ok((r.value, st.Rest())) else Err(r.error)
  {
    var planes :- st.TakeTable(FOUR_FLOATS, w => w, Record(FOUR_FLOATS), READER.planes, Truncated, InvalidPlaneCount);
    var raw :- st.Take(VIEW_BYTES, Truncated);
    return Ok(View(planes, raw));
  }

  method ReadDump(st: Stream, fmt: Format, ghost views: Codec<View, GateError>) returns (r: Result<Dump, GateError>)
    requires st.Valid() && forall s :: views.parse(s) == ParseView(READER.planes, s)
    modifies st`pos
    ensures st.Valid()
    ensures ParseDump(fmt, views, READER.views, old(st.Rest())) == if r.Ok? then Ok((r.value, st.Rest()))
      else Err(r.error)
  {
    var w :- st.TakeWords(fmt, Truncated);
    var count := At(w, 2);
    if count > READER.views {
      return Err(InvalidViewCount);
    }
    ghost var s := st.Rest();
    var got: seq<View> := [];
    ResumeEnds(views, count, [], s);
    for i := 0 to count
      invariant st.Valid()
      invariant ParseMany(views, count, s) == Resume(got, ParseMany(views, count - i, st.Rest()))
    {
      ResumeStep(views, got, count - i, st.Rest());
      var v :- ReadView(st);
      got := got + [v];
    }
    ResumeEnds(views, 0, got, st.Rest());
    return Ok(DumpOf(w, got));
  }

  method ReadDumps(st: Stream) returns (r: Result<seq<Dump>, GateError>)
    requires st.Valid()
    modifies st`pos
    ensures st.Valid()
    ensures DumpList(READER).parse(old(st.Rest())) ==
      if r.Ok? then Ok((r.value, st.Rest())) else Err(r.error)
  {
    var n :- st.TakeWords([4], Truncated);
    if n[0] > READER.dumps {
      return Err(InvalidDumpCount);
    }
    ghost var s, c := st.Rest(), Dumps(DUMP, Views(READER.planes), READER.views);
    var dumps: seq<Dump> := [];
    ResumeEnds(c, n[0], [], s);
    for i := 0 to n[0]
      invariant st.Valid()
      invariant ParseMany(c, n[0], s) == Resume(dumps, ParseMany(c, n[0] - i, st.Rest()))
    {
      ResumeStep(c, dumps, n[0] - i, st.Rest());
      var d :- ReadDump(st, DUMP, Views(READER.planes));
      dumps := dumps + [d];
    }
    ResumeEnds(c, 0, dumps, st.Rest());
    return Ok(dumps);
  }

  method ReadParts(st: Stream, version: nat) returns (r: Result<(seq<Part>, seq<LodTable>), GateError>)
    requires st.Valid()
    modifies st`pos
    ensures st.Valid()
    ensures ParseBoth(Optional(version >= 2, Table(Parts(version))), Optional(version >= 3, Table(LodTables())),
        old(st.Rest())) ==
      if r.Ok? then Ok((r.value, st.Rest())) else Err(r.error)
  {
    var parts, tables := [], [];
    if version >= 2 {
      parts :- st.TakeTable(PartRecord(version), w => PartOf(version, w), Parts(version), MAX_COUNT, Truncated,
        Truncated);
    }
    if version >= 3 {
      tables :- st.TakeTable(TABLE, LodTableOf, LodTables(), MAX_COUNT, Truncated, Truncated);
    }
    return Ok((parts, tables));
  }

  method ReadTail(st: Stream, version: nat) returns (r: Result<Tail, GateError>)
    requires st.Valid()
    modifies st`pos
    ensures st.Valid()
    ensures TailOf(version).parse(old(st.Rest())) == if r.Ok? then Ok((r.value, st.Rest())) else Err(r.error)
  {
    hide ParseCounted, PackAll, WriteMany, AllOk, TestOf, BuilderOf, EntryOf;
    var tests :- st.TakeTable(TEST, TestOf, Tests(), MAX_COUNT, Truncated, Truncated);
    var builders :- st.TakeTable(BUILDER, BuilderOf, Builders(), MAX_COUNT, Truncated, Truncated);
    var entries :- st.TakeTable(EntryRecord(version), EntryOf, Entries(version), MAX_COUNT, Truncated, Truncated);
    var subs :- st.TakeTable(SUB, w => w, Record(SUB), MAX_COUNT, Truncated, Truncated);
    var parts :- ReadParts(st, version);
    return Ok((tests, (builders, (entries, (subs, parts)))));
  }

  method ReadBody(st: Stream, version: nat) returns (r: Result<Body, GateError>)
    requires st.Valid()
    modifies st`pos
    ensures st.Valid()
    ensures BodyOf(version).parse(old(st.Rest())) == if r.Ok? then Ok((r.value, st.Rest())) else Err(r.error)
  {
    hide TailOf, DumpList, ParseWords, PackAll;
    var head :- st.TakeWords(HEADER, Truncated);
    var counts :- st.TakeWords(Counters(version), Truncated);
    var dumps :- ReadDumps(st);
    var tail :- ReadTail(st, version);
    return Ok((head, (counts, (dumps, tail))));
  }

  /** The end marker and the checks over the whole file. */
  method Close(st: Stream, g: Gate) returns (r: Result<Gate, GateError>)
    requires st.Valid()
    modifies st`pos
    ensures r == Finish(g, old(st.Rest()))
  {
    if !DistinctTables(g.tables) {
      return Err(TableRecordedTwice);
    }
    var end :- st.Take(4, Truncated);
    if end != END {
      return Err(MissingEndMarker);
    }
    var more := st.Read(1);
    if more != [] {
      return Err(TrailingBytes);
    }
    for i := 0 to |g.builders|
      invariant forall x :: 0 <= x < i ==> BuilderInRange(g.builders[x], |g.entries|)
    {
      if !BuilderInRange(g.builders[i], |g.entries|) {
        return Err(BuilderEntriesOutOfRange);
      }
    }
    for i := 0 to |g.entries|
      invariant forall x :: 0 <= x < i ==> EntryInRange(g.entries[x], |g.subs|)
    {
      if !EntryInRange(g.entries[i], |g.subs|) {
        return Err(EntrySubItemsOutOfRange);
      }
    }
    for i := 0 to |g.parts|
      invariant forall x :: 0 <= x < i ==> PartInRange(g.parts[x], |g.builders|)
    {
      if !PartInRange(g.parts[i], |g.builders|) {
        return Err(PartBuilderOutOfRange);
      }
    }
    return Ok(g);
  }

  method ReadHeader(st: Stream) returns (r: Result<nat, GateError>)
    requires st.Valid()
    modifies st`pos
    ensures st.Valid()
    ensures ParseHeader(old(st.Rest())) == if r.Ok? then Ok((r.value, st.Rest())) else Err(r.error)
  {
    var magic :- st.Take(8, Truncated);
    if magic != MAGIC {
      return Err(NotAGateFile);
    }
    var version :- st.TakeWords([4], Truncated);
    if version[0] !in {1, 2, 3} {
      return Err(UnsupportedVersion);
    }
    return Ok(version[0]);
  }

  method ReadSections(st: Stream, version: nat) returns (r: Result<Gate, GateError>)
    requires st.Valid()
    modifies st`pos
    ensures r == ParseSections(BodyOf(version), version, old(st.Rest()))
  {
    var body :- ReadBody(st, version);
    r := Close(st, GateOf(version, body));
  }

  /** read_gate: the file's contents, or the first error met. */
  method ReadGate(data: seq<byte>) returns (r: Result<Gate, GateError>)
    ensures r == ParseGate(data)
  {
    var st := new Stream(data);
    var version :- ReadHeader(st);
    r := ReadSections(st, version);
  }

  // ---------------------------------------------------------------- the writer

  /** What a file of g's version carries of g: later counters, sections and fields are left out. */
  function Carried(g: Gate): Gate {
    g.(counts := Slice(g.counts, 0, |Counters(g.version)|),
       entries := if g.version >= 2 then g.entries
         else seq(|g.entries|, i requires 0 <= i < |g.entries| => g.entries[i].(spheres := [])),
       parts := if g.version < 2 then [] else if g.version >= 3 then g.parts
                else seq(|g.parts|, i requires 0 <= i < |g.parts| => g.parts[i].(lodTable := 0)),
       tables := if g.version >= 3 then g.tables else [])
  }

  lemma {:induction false} TailOk(version: nat, x: Tail)
    requires TailOf(version).ok(x)
    ensures AllOk(Entries(version), x.1.1.0)
    ensures Optional(version >= 2, Table(Parts(version))).ok(x.1.1.1.1.0)
    ensures Optional(version >= 3, Table(LodTables())).ok(x.1.1.1.1.1)
  {
  }

  lemma {:induction false} EntriesCarried(version: nat, entries: seq<Entry>)
    requires AllOk(Entries(version), entries) && version < 2
    ensures forall i :: 0 <= i < |entries| ==> entries[i].spheres == []
  {
    forall i | 0 <= i < |entries|
      ensures entries[i].spheres == []
    {
      assert Entries(version).ok(entries[i]);
      assert |EntryWords(entries[i])| == |EntryRecord(version)|;
    }
  }

  lemma {:induction false} PartsCarried(version: nat, parts: seq<Part>)
    requires Optional(version >= 2, Table(Parts(version))).ok(parts)
    ensures version < 2 ==> parts == []
    ensures version == 2 ==> forall i :: 0 <= i < |parts| ==> parts[i].lodTable == 0
  {
    if version == 2 {
      forall i | 0 <= i < |parts|
        ensures parts[i].lodTable == 0
      {
        assert Parts(version).ok(parts[i]);
      }
    }
  }

  /** A well-formed gate has nothing its version does not carry. */
  lemma {:induction false} WellFormedIsCarried(g: Gate)
    requires WellFormed(g)
    ensures Carried(g) == g
  {
    var x := Sections(g);
    assert Record(Counters(g.version)).ok(x.1.0) && TailOf(g.version).ok(x.1.1.1);
    TailOk(g.version, x.1.1.1);
    CarriedFields(g);
  }

  lemma {:induction false} CarriedFields(g: Gate)
    requires |g.counts| == |Counters(g.version)| && AllOk(Entries(g.version), g.entries)
    requires Optional(g.version >= 2, Table(Parts(g.version))).ok(g.parts)
    requires Optional(g.version >= 3, Table(LodTables())).ok(g.tables)
    ensures Carried(g) == g
  {
    PartsCarried(g.version, g.parts);
    if g.version < 2 {
      EntriesCarried(g.version, g.entries);
    }
    assert Carried(g).entries == g.entries && Carried(g).parts == g.parts && Carried(g).counts == g.counts;
  }

  /** One counted table appended to the output, record by record. */
  method AppendTable<T>(s: Sink, c: Codec<T, GateError>, xs: seq<T>)
    modifies s
    ensures s.out == old(s.out) + (PackAll([4], [|xs|]) + WriteMany(c, xs))
  {
    s.Append(PackAll([4], [|xs|]));
    ghost var start := s.out;
    assert start == start + WriteMany(c, xs[..0]);
    for i := 0 to |xs|
      invariant s.out == start + WriteMany(c, xs[..i])
    {
      WriteManyAppend(c, xs[..i], xs[i]);
      assert xs[..i + 1] == xs[..i] + [xs[i]];
      s.Append(c.write(xs[i]));
    }
    assert xs[..|xs|] == xs;
    Shift(old(s.out), PackAll([4], [|xs|]), WriteMany(c, xs));
  }

  method AppendOptional<T>(s: Sink, present: bool, c: Codec<T, GateError>, xs: seq<T>)
    modifies s
    ensures s.out == old(s.out) + Optional(present, Table(c)).write(xs)
  {
    if present {
      AppendTable(s, c, xs);
    } else {
      assert s.out == s.out + [];
    }
  }

  method AppendTail(s: Sink, g: Gate)
    modifies s
    ensures s.out == old(s.out) + TailOf(g.version).write(Sections(g).1.1.1)
  {
    hide PackAll, WriteMany;
    ghost var out := s.out;
    ghost var tests, builders := Table(Tests()).write(g.tests), Table(Builders()).write(g.builders);
    ghost var entries, subs := Table(Entries(g.version)).write(g.entries), Table(Record(SUB)).write(g.subs);
    ghost var parts := Optional(g.version >= 2, Table(Parts(g.version))).write(g.parts);
    ghost var tables := Optional(g.version >= 3, Table(LodTables())).write(g.tables);
    Shift(out, tests, builders + (entries + (subs + (parts + tables))));
    Shift(out + tests, builders, entries + (subs + (parts + tables)));
    Shift(out + tests + builders, entries, subs + (parts + tables));
    Shift(out + tests + builders + entries, subs, parts + tables);
    Shift(out + tests + builders + entries + subs, parts, tables);
    AppendTable(s, Tests(), g.tests);
    AppendTable(s, Builders(), g.builders);
    AppendTable(s, Entries(g.version), g.entries);
    AppendTable(s, Record(SUB), g.subs);
    AppendOptional(s, g.version >= 2, Parts(g.version), g.parts);
    AppendOptional(s, g.version >= 3, LodTables(), g.tables);
  }

  /** write_gate: the encoding of what the version carries. */
  method WriteGate(g: Gate) returns (out: seq<byte>)
    requires Packable(Carried(g))
    ensures out == PackGate(Carried(g))
  {
    hide TailOf, PackAll, Packable;
    var carried := Carried(g);
    var head := PackAll(HEADER, [g.first, g.last, g.flags, g.visGlobal]);
    var counts := PackAll(Counters(g.version), carried.counts);
    var s := new Sink(MAGIC + PackAll([4], [g.version]));
    ghost var start := s.out;
    ghost var dumps, tail := DumpList(READER).write(g.dumps), TailOf(g.version).write(Sections(carried).1.1.1);
    Shift(start + head + counts, dumps, tail);
    Shift(start + head, counts, dumps + tail);
    Shift(start, head, counts + (dumps + tail));
    assert BodyOf(g.version).write(Sections(carried)) == head + (counts + (dumps + tail));
    s.Append(head);
    s.Append(counts);
    AppendTable(s, Dumps(DUMP, Views(READER.planes), READER.views), g.dumps);
    AppendTail(s, carried);
    s.Append(END);
    out := s.out;
  }
}
