/**
 Where the numbers of an EDVRGATE file lie: byte offsets as tools/cull_gate_probe.py and the probe's own writer have
 them, whatever the parser and the writer of GateCodec share. All numbers are little-endian.
 */
module GateBytes {
  import opened Prelude
  import opened Bytes
  import opened Parsing
  import opened GateCodec

  // ---------------------------------------------------------------- the offsets of each record

  /** The magic, the version and the header proper. */
  ghost predicate HeaderAt(data: seq<byte>, g: Gate) {
    |data| >= 28 && data[..8] == [0x45, 0x44, 0x56, 0x52, 0x47, 0x41, 0x54, 0x45] &&
    HoldsAt(data, 8, 4, g.version) && HoldsAt(data, 12, 4, g.first) && HoldsAt(data, 16, 4, g.last) &&
    HoldsAt(data, 20, 4, g.flags) && HoldsAt(data, 24, 4, g.visGlobal)
  }

  /** Twelve counters, eighteen from version 2 and twenty from version 3 on. */
  ghost predicate CountersAt(data: seq<byte>, g: Gate) {
    |g.counts| == (if g.version >= 3 then 20 else if g.version >= 2 then 18 else 12) &&
    forall n: nat :: n < |g.counts| ==> HoldsAt(data, 28 + 4 * n, 4, g.counts[n])
  }

  ghost predicate TestAt(data: seq<byte>, p: nat, x: Test) {
    HoldsAt(data, p, 8, x.record) && HoldsAt(data, p + 8, 8, x.ctx) && HoldsAt(data, p + 16, 4, x.frame) &&
    HoldsAt(data, p + 20, 4, x.lod) && HoldsAt(data, p + 24, 2, x.view) && HoldsAt(data, p + 26, 1, x.passed) &&
    HoldsAt(data, p + 27, 1, x.flags)
  }

  ghost predicate BuilderAt(data: seq<byte>, p: nat, b: Builder) {
    BuilderShape(b) && MasksAt(data, p, b) && PoseAt(data, p, b) && TotalsAt(data, p, b)
  }

  ghost predicate MasksAt(data: seq<byte>, p: nat, b: Builder)
    requires BuilderShape(b)
  {
    HoldsAt(data, p, 8, b.record) && HoldsAt(data, p + 8, 8, b.pose) && HoldsAt(data, p + 16, 8, b.ctx) &&
    HoldsAt(data, p + 24, 8, b.node) && HoldsAt(data, p + 32, 8, b.activeMask) && HoldsAt(data, p + 40, 8, b.recMask) &&
    (forall n: nat :: n < 4 ==> HoldsAt(data, p + 48 + 8 * n, 8, b.nibbles[n])) &&
    HoldsAt(data, p + 80, 8, b.bitOk) && HoldsAt(data, p + 88, 8, b.frustumPass) &&
    HoldsAt(data, p + 96, 8, b.frustumInside) && HoldsAt(data, p + 104, 8, b.visApplies)
  }

  ghost predicate PoseAt(data: seq<byte>, p: nat, b: Builder)
    requires BuilderShape(b)
  {
    (forall n: nat :: n < 3 ==> HoldsAt(data, p + 112 + 4 * n, 4, b.position[n])) &&
    (forall n: nat :: n < 8 ==> HoldsAt(data, p + 124 + n, 1, b.quat[n])) &&
    forall n: nat :: n < 32 ==> HoldsAt(data, p + 132 + 4 * n, 4, b.vectors[n])
  }

  ghost predicate TotalsAt(data: seq<byte>, p: nat, b: Builder) {
    HoldsAt(data, p + 260, 4, b.frame) && HoldsAt(data, p + 264, 4, b.viewCount) &&
    HoldsAt(data, p + 268, 4, b.flags) &&
    HoldsAt(data, p + 272, 4, b.entryCount) && HoldsAt(data, p + 276, 4, b.entryFirst) &&
    HoldsAt(data, p + 280, 4, b.entriesCopied)
  }

  /** From version 2 on the model's centre and sphere follow. */
  ghost predicate EntryAt(data: seq<byte>, p: nat, version: nat, e: Entry) {
    HoldsAt(data, p, 8, e.model) && HoldsAt(data, p + 8, 4, e.subCount) && HoldsAt(data, p + 12, 4, e.subFirst) &&
    HoldsAt(data, p + 16, 4, e.subCopied) && |e.spheres| == (if version >= 2 then 8 else 0) &&
    forall n: nat :: n < |e.spheres| ==> HoldsAt(data, p + 20 + 4 * n, 4, e.spheres[n])
  }

  ghost predicate SubAt(data: seq<byte>, p: nat, s: seq<nat>) {
    |s| == 8 && forall n: nat :: n < 8 ==> HoldsAt(data, p + 4 * n, 4, s[n])
  }

  /** From version 3 on the table's pointer stands before the centre. */
  ghost predicate PartAt(data: seq<byte>, p: nat, version: nat, x: Part) {
    HoldsAt(data, p, 8, x.pose) && HoldsAt(data, p + 8, 8, x.subItem) && HoldsAt(data, p + 16, 8, x.viewBits) &&
    if version >= 3 then HoldsAt(data, p + 24, 8, x.lodTable) && PartTestAt(data, p + 32, x)
    else x.lodTable == 0 && PartTestAt(data, p + 24, x)
  }

  ghost predicate PartTestAt(data: seq<byte>, p: nat, x: Part) {
    |x.centre| == 3 &&
    HoldsAt(data, p, 4, x.centre[0]) && HoldsAt(data, p + 4, 4, x.centre[1]) && HoldsAt(data, p + 8, 4, x.centre[2]) &&
    HoldsAt(data, p + 12, 4, x.radius) && HoldsAt(data, p + 16, 4, x.frame) && HoldsAt(data, p + 20, 4, x.builder) &&
    HoldsAt(data, p + 24, 4, x.entry) && HoldsAt(data, p + 28, 4, x.sub) && HoldsAt(data, p + 32, 4, x.lod) &&
    HoldsAt(data, p + 36, 2, x.view) && HoldsAt(data, p + 38, 1, x.passed) && HoldsAt(data, p + 39, 1, x.flags)
  }

  ghost predicate LodTableAt(data: seq<byte>, p: nat, t: LodTable) {
    HoldsAt(data, p, 8, t.table) && HoldsAt(data, p + 8, 8, t.model) && HoldsAt(data, p + 16, 4, t.flags) &&
    |t.raw| == 128 && forall n: nat :: n < 128 ==> HoldsAt(data, p + 20 + n, 1, t.raw[n])
  }

  function ViewSize(v: View): nat { 4 + 16 * |v.planes| + 0x6A0 }

  ghost predicate ViewAt(data: seq<byte>, p: nat, v: View) {
    HoldsAt(data, p, 4, |v.planes|) &&
    (forall n: nat :: n < |v.planes| ==> PlaneAt(data, p + 4 + 16 * n, v.planes[n])) &&
    |v.raw| == 0x6A0 && Lies(data, p + 4 + 16 * |v.planes|, v.raw)
  }

  ghost predicate PlaneAt(data: seq<byte>, p: nat, plane: seq<nat>) {
    |plane| == 4 && forall n: nat :: n < 4 ==> HoldsAt(data, p + 4 * n, 4, plane[n])
  }

  function ViewsSize(views: seq<View>): nat {
    if views == [] then 0 else ViewSize(views[0]) + ViewsSize(views[1..])
  }

  ghost predicate ViewsAt(data: seq<byte>, p: nat, views: seq<View>)
    decreases views
  {
    views == [] || (ViewAt(data, p, views[0]) && ViewsAt(data, p + ViewSize(views[0]), views[1..]))
  }

  function DumpSize(d: Dump): nat { 280 + ViewsSize(d.views) }

  ghost predicate DumpAt(data: seq<byte>, p: nat, d: Dump) {
    HoldsAt(data, p, 8, d.ctx) && HoldsAt(data, p + 8, 4, d.frame) && HoldsAt(data, p + 12, 4, |d.views|) &&
    HoldsAt(data, p + 16, 4, d.lodScale) && HoldsAt(data, p + 20, 4, d.faults) &&
    |d.bitTable| == 64 && (forall n: nat :: n < 64 ==> HoldsAt(data, p + 24 + 4 * n, 4, d.bitTable[n])) &&
    ViewsAt(data, p + 280, d.views)
  }

  function DumpsSize(dumps: seq<Dump>): nat {
    if dumps == [] then 0 else DumpSize(dumps[0]) + DumpsSize(dumps[1..])
  }

  ghost predicate DumpsAt(data: seq<byte>, p: nat, dumps: seq<Dump>)
    decreases dumps
  {
    dumps == [] || (DumpAt(data, p, dumps[0]) && DumpsAt(data, p + DumpSize(dumps[0]), dumps[1..]))
  }

  // ---------------------------------------------------------------- where the sections start

  function DumpsStart(g: Gate): nat { 28 + 4 * |g.counts| }

  function TestsStart(g: Gate): nat { DumpsStart(g) + 4 + DumpsSize(g.dumps) }

  function BuildersStart(g: Gate): nat { TestsStart(g) + 4 + 28 * |g.tests| }

  function EntriesStart(g: Gate): nat { BuildersStart(g) + 4 + 284 * |g.builders| }

  function EntrySize(version: nat): nat { if version >= 2 then 52 else 20 }

  function SubsStart(g: Gate): nat { RowStart(EntriesStart(g), EntrySize(g.version), |g.entries|) }

  function PartsStart(g: Gate): nat { SubsStart(g) + 4 + 32 * |g.subs| }

  function PartSize(version: nat): nat { if version >= 3 then 72 else 64 }

  function TablesStart(g: Gate): nat {
    if g.version >= 2 then RowStart(PartsStart(g), PartSize(g.version), |g.parts|) else PartsStart(g)
  }

  function EndStart(g: Gate): nat { if g.version >= 3 then TablesStart(g) + 4 + 148 * |g.tables| else TablesStart(g) }

  /** Row i of a table that starts with its count. */
  function RowStart(start: nat, size: nat, i: nat): nat { start + 4 + size * i }

  ghost predicate TestsAt(data: seq<byte>, p: nat, tests: seq<Test>) {
    HoldsAt(data, p, 4, |tests|) && forall i: nat :: i < |tests| ==> TestAt(data, RowStart(p, 28, i), tests[i])
  }

  ghost predicate BuildersAt(data: seq<byte>, p: nat, builders: seq<Builder>) {
    HoldsAt(data, p, 4, |builders|) &&
    forall i: nat :: i < |builders| ==> BuilderAt(data, RowStart(p, 284, i), builders[i])
  }

  ghost predicate EntriesAt(data: seq<byte>, p: nat, version: nat, entries: seq<Entry>) {
    HoldsAt(data, p, 4, |entries|) &&
    forall i: nat :: i < |entries| ==> EntryAt(data, RowStart(p, EntrySize(version), i), version, entries[i])
  }

  ghost predicate SubsAt(data: seq<byte>, p: nat, subs: seq<seq<nat>>) {
    HoldsAt(data, p, 4, |subs|) && forall i: nat :: i < |subs| ==> SubAt(data, RowStart(p, 32, i), subs[i])
  }

  ghost predicate PartsAt(data: seq<byte>, p: nat, version: nat, parts: seq<Part>) {
    HoldsAt(data, p, 4, |parts|) &&
    forall i: nat :: i < |parts| ==> PartAt(data, RowStart(p, PartSize(version), i), version, parts[i])
  }

  ghost predicate LodTablesAt(data: seq<byte>, p: nat, tables: seq<LodTable>) {
    HoldsAt(data, p, 4, |tables|) && forall i: nat :: i < |tables| ==> LodTableAt(data, RowStart(p, 148, i), tables[i])
  }

  /** Every section has its count and its rows, one after another; parts from version 2 and tables from version 3 on. */
  ghost predicate SectionsAt(data: seq<byte>, g: Gate) {
    HoldsAt(data, DumpsStart(g), 4, |g.dumps|) && DumpsAt(data, DumpsStart(g) + 4, g.dumps) &&
    TestsAt(data, TestsStart(g), g.tests) && BuildersAt(data, BuildersStart(g), g.builders) &&
    EntriesAt(data, EntriesStart(g), g.version, g.entries) && SubsAt(data, SubsStart(g), g.subs) &&
    (if g.version >= 2 then PartsAt(data, PartsStart(g), g.version, g.parts) else g.parts == []) &&
    (if g.version >= 3 then LodTablesAt(data, TablesStart(g), g.tables) else g.tables == []) &&
    |data| == EndStart(g) + 4 && data[EndStart(g)..] == [0x45, 0x44, 0x56, 0x45]
  }

  // ---------------------------------------------------------------- records

  /** A record of two parts is the two after one another. */
  lemma {:induction false} FieldsSplit(data: seq<byte>, p: nat, a: Format, b: Format, words: seq<nat>)
    requires FieldsAt(data, p, a + b, words)
    ensures FieldsAt(data, p, a, words[..|a|]) && FieldsAt(data, p + Size(a), b, words[|a|..])
  {
    hide HoldsAt, FieldStart, Size;
    forall j: nat | j < |a|
      ensures HoldsAt(data, p + FieldStart(a, j), a[j], words[j])
    {
      FieldStartJoin(a, b, j);
      assert (a + b)[j] == a[j];
    }
    forall j: nat | j < |b|
      ensures HoldsAt(data, p + Size(a) + FieldStart(b, j), b[j], words[|a| + j])
    {
      FieldStartJoin(a, b, |a| + j);
      JoinAtEnd(a, b, j);
      assert (a + b)[|a| + j] == b[j];
    }
  }

  lemma {:induction false} JoinAtEnd(a: Format, b: Format, j: nat)
    ensures FieldStart(a + b, |a| + j) == Size(a) + FieldStart(b, j)
  {
    FieldStartJoin(a, b, |a| + j);
    if j == 0 {
      FieldsFill(a);
    }
  }

  lemma {:induction false} TestLies(data: seq<byte>, p: nat, x: Test)
    requires Lies(data, p, Tests().write(x)) && Tests().ok(x)
    ensures TestAt(data, p, x) && |Tests().write(x)| == 28
  {
    hide PackAll, HoldsAt, Lies, FieldStart, Size;
    RecordLies(data, p, TEST, TestWords(x));
    Steps(TEST);
    assert FieldStart(TEST, 7) == 28;
  }

  lemma {:induction false} BuilderLies(data: seq<byte>, p: nat, b: Builder)
    requires Lies(data, p, Builders().write(b)) && Builders().ok(b)
    ensures BuilderAt(data, p, b) && |Builders().write(b)| == 284
  {
    hide PackAll, HoldsAt, Lies, FieldStart, Size, ColumnsAt, MasksAt, PoseAt, TotalsAt, BuilderWords;
    var words := BuilderWords(b);
    RecordLies(data, p, BUILDER, words);
    BuilderColumns(data, p, words);
    MasksLie(data, p, b);
    PoseLies(data, p, b);
    TotalsLie(data, p, b);
  }

  lemma {:induction false} MasksLie(data: seq<byte>, p: nat, b: Builder)
    requires BuilderShape(b) && ColumnsAt(data, p, BuilderWords(b))
    ensures MasksAt(data, p, b)
  {
    hide HoldsAt;
    var words := BuilderWords(b);
    BuilderNumbers(b);
    forall n: nat | n < 4
      ensures HoldsAt(data, p + 48 + 8 * n, 8, b.nibbles[n])
    {
      assert words[6..10][n] == words[6 + n];
      assert HoldsAt(data, p + 8 * (6 + n), 8, words[6 + n]);
    }
  }

  lemma {:induction false} PoseLies(data: seq<byte>, p: nat, b: Builder)
    requires BuilderShape(b) && ColumnsAt(data, p, BuilderWords(b))
    ensures PoseAt(data, p, b)
  {
    hide HoldsAt;
    var words := BuilderWords(b);
    BuilderNumbers(b);
    forall n: nat | n < 3
      ensures HoldsAt(data, p + 112 + 4 * n, 4, b.position[n])
    {
      assert words[14..][n] == words[14..17][n];
    }
    forall n: nat | n < 8
      ensures HoldsAt(data, p + 124 + n, 1, b.quat[n])
    {
      assert words[17..][n] == words[17..25][n];
    }
    forall n: nat | n < 32
      ensures HoldsAt(data, p + 132 + 4 * n, 4, b.vectors[n])
    {
      assert words[25..][n] == words[25..57][n];
    }
  }

  lemma {:induction false} TotalsLie(data: seq<byte>, p: nat, b: Builder)
    requires BuilderShape(b) && ColumnsAt(data, p, BuilderWords(b))
    ensures TotalsAt(data, p, b)
  {
    hide HoldsAt;
    BuilderNumbers(b);
    var last := BuilderWords(b)[57..];
    assert forall j: nat :: j < 6 ==> HoldsAt(data, p + 260 + 4 * j, 4, last[j]);
    assert HoldsAt(data, p + 260 + 4 * 0, 4, last[0]) && HoldsAt(data, p + 260 + 4 * 1, 4, last[1]) &&
           HoldsAt(data, p + 260 + 4 * 2, 4, last[2]) && HoldsAt(data, p + 260 + 4 * 3, 4, last[3]) &&
           HoldsAt(data, p + 260 + 4 * 4, 4, last[4]) && HoldsAt(data, p + 260 + 4 * 5, 4, last[5]);
  }

  /** The columns of a builder's record: fourteen of 8 bytes, three of 4, eight single bytes, thirty-eight of 4. */
  ghost predicate ColumnsAt(data: seq<byte>, p: nat, words: seq<nat>) {
    |words| == 63 &&
    (forall j: nat :: j < 14 ==> HoldsAt(data, p + 8 * j, 8, words[j])) &&
    (forall j: nat :: j < 3 ==> HoldsAt(data, p + 112 + 4 * j, 4, words[14..][j])) &&
    (forall j: nat :: j < 8 ==> HoldsAt(data, p + 124 + 1 * j, 1, words[17..][j])) &&
    (forall j: nat :: j < 32 ==> HoldsAt(data, p + 132 + 4 * j, 4, words[25..][j])) &&
    forall j: nat :: j < 6 ==> HoldsAt(data, p + 260 + 4 * j, 4, words[57..][j])
  }

  lemma {:induction false} BuilderColumns(data: seq<byte>, p: nat, words: seq<nat>)
    requires FieldsAt(data, p, BUILDER, words)
    ensures ColumnsAt(data, p, words) && Size(BUILDER) == 284
  {
    hide HoldsAt, FieldStart, Size, FieldsAt;
    var a, b, c, d, e := Of(14, 8), Of(3, 4), Of(8, 1), Of(32, 4), Of(6, 4);
    assert |words| == 63 by { FieldsCount(data, p, BUILDER, words); }
    assert BUILDER == a + b + c + d + e;
    SizeOfSame(14, 8);
    SizeOfSame(3, 4);
    SizeOfSame(8, 1);
    SizeOfSame(32, 4);
    SizeOfSame(6, 4);
    SizeJoin(a, b);
    SizeJoin(a + b, c);
    SizeJoin(a + b + c, d);
    SizeJoin(a + b + c + d, e);
    assert words[..57][..25] == words[..25] && words[..25][..17] == words[..17] && words[..17][..14] == words[..14];
    FieldsSplit(data, p, a + b + c + d, e, words);
    FieldsSplit(data, p, a + b + c, d, words[..57]);
    FieldsSplit(data, p, a + b, c, words[..25]);
    FieldsSplit(data, p, a, b, words[..17]);
    SameFieldsAt(data, p, 14, 8, words[..14]);
    SameFieldsAt(data, p + 112, 3, 4, words[..17][14..]);
    SameFieldsAt(data, p + 124, 8, 1, words[..25][17..]);
    SameFieldsAt(data, p + 132, 32, 4, words[..57][25..]);
    SameFieldsAt(data, p + 260, 6, 4, words[57..]);
    SameColumns(data, p, words);
  }

  lemma SameColumns(data: seq<byte>, p: nat, words: seq<nat>)
    requires |words| == 63
    requires forall j: nat :: j < 14 ==> HoldsAt(data, p + 8 * j, 8, words[..14][j])
    requires forall j: nat :: j < 3 ==> HoldsAt(data, p + 112 + 4 * j, 4, words[..17][14..][j])
    requires forall j: nat :: j < 8 ==> HoldsAt(data, p + 124 + 1 * j, 1, words[..25][17..][j])
    requires forall j: nat :: j < 32 ==> HoldsAt(data, p + 132 + 4 * j, 4, words[..57][25..][j])
    requires forall j: nat :: j < 6 ==> HoldsAt(data, p + 260 + 4 * j, 4, words[57..][j])
    ensures ColumnsAt(data, p, words)
  {
    hide HoldsAt;
    assert forall j: nat :: j < 14 ==> words[..14][j] == words[j];
    assert forall j: nat :: j < 3 ==> words[..17][14..][j] == words[14..][j];
    assert forall j: nat :: j < 8 ==> words[..25][17..][j] == words[17..][j];
    assert forall j: nat :: j < 32 ==> words[..57][25..][j] == words[25..][j];
  }

  lemma FieldsCount(data: seq<byte>, p: nat, fmt: Format, words: seq<nat>)
    requires FieldsAt(data, p, fmt, words)
    ensures |words| == |fmt|
  {
  }

  /** Which number stands where among a builder's. */
  lemma BuilderNumbers(b: Builder)
    requires BuilderShape(b)
    ensures var w := BuilderWords(b);
      |w| == 63 && w[0] == b.record && w[1] == b.pose && w[2] == b.ctx && w[3] == b.node && w[4] == b.activeMask &&
      w[5] == b.recMask && w[6..10] == b.nibbles && w[10] == b.bitOk && w[11] == b.frustumPass &&
      w[12] == b.frustumInside && w[13] == b.visApplies && w[14..17] == b.position && w[17..25] == b.quat &&
      w[25..57] == b.vectors &&
      w[57..] == [b.frame, b.viewCount, b.flags, b.entryCount, b.entryFirst, b.entriesCopied]
  {
  }

  lemma {:induction false} EntryLies(data: seq<byte>, p: nat, version: nat, e: Entry)
    requires Lies(data, p, Entries(version).write(e)) && Entries(version).ok(e)
    ensures EntryAt(data, p, version, e) && |Entries(version).write(e)| == EntrySize(version)
  {
    hide PackAll, HoldsAt, Lies, FieldStart, Size, FieldsAt;
    var words, head, n := EntryWords(e), [8, 4, 4, 4], if version >= 2 then 8 else 0;
    RecordLies(data, p, EntryRecord(version), words);
    FieldsCount(data, p, EntryRecord(version), words);
    assert EntryRecord(version) == head + Of(n, 4);
    FieldsSplit(data, p, head, Of(n, 4), words);
    SizeJoin(head, Of(n, 4));
    FourFields(data, p, words[..4]);
    SameFieldsAt(data, p + 20, n, 4, words[4..]);
    assert words[4..] == e.spheres;
  }

  lemma {:induction false} FourFields(data: seq<byte>, p: nat, words: seq<nat>)
    requires FieldsAt(data, p, [8, 4, 4, 4], words)
    ensures Size([8, 4, 4, 4]) == 20 && |words| == 4 && HoldsAt(data, p, 8, words[0])
    ensures HoldsAt(data, p + 8, 4, words[1]) && HoldsAt(data, p + 12, 4, words[2]) &&
      HoldsAt(data, p + 16, 4, words[3])
  {
    hide HoldsAt, FieldStart, Size;
    Steps([8, 4, 4, 4]);
    assert FieldStart([8, 4, 4, 4], 4) == 20;
  }

  lemma {:induction false} SubLies(data: seq<byte>, p: nat, s: seq<nat>)
    requires Lies(data, p, Record(SUB).write(s)) && Record(SUB).ok(s)
    ensures SubAt(data, p, s) && |Record(SUB).write(s)| == 32
  {
    hide PackAll, HoldsAt, Lies, FieldStart, Size;
    RecordLies(data, p, SUB, s);
    SameFieldsAt(data, p, 8, 4, s);
  }

  const PART_TEST: Format := [4, 4, 4, 4, 4, 4, 4, 4, 4, 2, 1, 1]

  lemma {:induction false} PartLies(data: seq<byte>, p: nat, version: nat, x: Part)
    requires Lies(data, p, Parts(version).write(x)) && Parts(version).ok(x)
    ensures PartAt(data, p, version, x) && |Parts(version).write(x)| == PartSize(version)
  {
    hide PackAll, HoldsAt, Lies, FieldStart, Size, FieldsAt;
    var words, n := PartWords(version, x), if version >= 3 then 4 else 3;
    RecordLies(data, p, PartRecord(version), words);
    FieldsCount(data, p, PartRecord(version), words);
    assert PartRecord(version) == Of(n, 8) + PART_TEST;
    FieldsSplit(data, p, Of(n, 8), PART_TEST, words);
    SizeJoin(Of(n, 8), PART_TEST);
    SameFieldsAt(data, p, n, 8, words[..n]);
    assert words[..n] == [x.pose, x.subItem, x.viewBits] + if version >= 3 then [x.lodTable] else [];
    assert HoldsAt(data, p + 8 * 0, 8, words[..n][0]) && HoldsAt(data, p + 8 * 1, 8, words[..n][1]) &&
           HoldsAt(data, p + 8 * 2, 8, words[..n][2]);
    assert version >= 3 ==> HoldsAt(data, p + 8 * 3, 8, words[..n][3]);
    assert words[n..] == x.centre + [x.radius, x.frame, x.builder, x.entry, x.sub, x.lod, x.view, x.passed, x.flags];
    PartTestLies(data, p + 8 * n, x, words[n..]);
  }

  lemma {:induction false} PartTestLies(data: seq<byte>, p: nat, x: Part, words: seq<nat>)
    requires FieldsAt(data, p, PART_TEST, words) && |x.centre| == 3
    requires words == x.centre + [x.radius, x.frame, x.builder, x.entry, x.sub, x.lod, x.view, x.passed, x.flags]
    ensures PartTestAt(data, p, x) && Size(PART_TEST) == 40
  {
    hide HoldsAt, FieldStart, Size;
    Steps(PART_TEST);
    assert FieldStart(PART_TEST, 12) == 40;
  }

  lemma {:induction false} LodTableLies(data: seq<byte>, p: nat, t: LodTable)
    requires Lies(data, p, LodTables().write(t)) && LodTables().ok(t)
    ensures LodTableAt(data, p, t) && |LodTables().write(t)| == 148
  {
    hide PackAll, HoldsAt, Lies, FieldStart, Size, FieldsAt;
    var words := LodTableWords(t);
    RecordLies(data, p, TABLE, words);
    FieldsCount(data, p, TABLE, words);
    FieldsSplit(data, p, [8, 8, 4], Of(TABLE_BYTES, 1), words);
    SizeJoin([8, 8, 4], Of(TABLE_BYTES, 1));
    ThreeFields(data, p, words[..3]);
    SameFieldsAt(data, p + 20, TABLE_BYTES, 1, words[3..]);
    assert words[3..] == t.raw;
  }

  lemma {:induction false} ThreeFields(data: seq<byte>, p: nat, words: seq<nat>)
    requires FieldsAt(data, p, [8, 8, 4], words)
    ensures Size([8, 8, 4]) == 20 && |words| == 3
    ensures HoldsAt(data, p, 8, words[0]) && HoldsAt(data, p + 8, 8, words[1]) && HoldsAt(data, p + 16, 4, words[2])
  {
    hide HoldsAt, FieldStart, Size;
    Steps([8, 8, 4]);
    assert FieldStart([8, 8, 4], 3) == 20;
  }

  // ---------------------------------------------------------------- tables

  lemma {:induction false} ManyLie<T>(data: seq<byte>, p: nat, c: Codec<T, GateError>, xs: seq<T>, size: nat)
    requires Lies(data, p, WriteMany(c, xs)) && forall i: nat :: i < |xs| ==> |c.write(xs[i])| == size
    ensures |WriteMany(c, xs)| == size * |xs|
    ensures forall i: nat :: i < |xs| ==> Lies(data, p + size * i, c.write(xs[i]))
    decreases xs
  {
    hide Lies;
    if xs != [] {
      LiesSplit(data, p, c.write(xs[0]), WriteMany(c, xs[1..]));
      ManyLie(data, p + size, c, xs[1..], size);
      TimesSteps(size, |xs| - 1);
      forall i: nat | i < |xs|
        ensures Lies(data, p + size * i, c.write(xs[i]))
      {
        if i > 0 {
          TimesSteps(size, i - 1);
          assert Lies(data, p + size + size * (i - 1), c.write(xs[1..][i - 1]));
        }
      }
    }
  }

  lemma TimesSteps(size: nat, i: nat)
    ensures size + size * i == size * (i + 1)
  {
  }

  lemma {:induction false} TableLies<T>(data: seq<byte>, p: nat, c: Codec<T, GateError>, xs: seq<T>, size: nat)
    requires Lies(data, p, Table(c).write(xs)) && |xs| <= MAX_COUNT
    requires forall i: nat :: i < |xs| ==> |c.write(xs[i])| == size
    ensures HoldsAt(data, p, 4, |xs|) && |Table(c).write(xs)| == 4 + size * |xs|
    ensures forall i: nat :: i < |xs| ==> Lies(data, RowStart(p, size, i), c.write(xs[i]))
  {
    hide Lies, PackAll, WriteMany, HoldsAt;
    LiesSplit(data, p, PackAll([4], [|xs|]), WriteMany(c, xs));
    NumberLies(data, p, |xs|);
    ManyLie(data, p + 4, c, xs, size);
  }

  lemma {:induction false} TestsLie(data: seq<byte>, p: nat, xs: seq<Test>)
    requires Lies(data, p, Table(Tests()).write(xs)) && Table(Tests()).ok(xs)
    ensures TestsAt(data, p, xs) && |Table(Tests()).write(xs)| == 4 + 28 * |xs|
  {
    hide Lies, HoldsAt, TestAt, Tests;
    forall i: nat | i < |xs|
      ensures |Tests().write(xs[i])| == 28
    {
      LiesItself(Tests().write(xs[i]));
      TestLies(Tests().write(xs[i]), 0, xs[i]);
    }
    TableLies(data, p, Tests(), xs, 28);
    forall i: nat | i < |xs|
      ensures TestAt(data, RowStart(p, 28, i), xs[i])
    {
      TestLies(data, RowStart(p, 28, i), xs[i]);
    }
  }

  lemma {:induction false} BuildersLie(data: seq<byte>, p: nat, xs: seq<Builder>)
    requires Lies(data, p, Table(Builders()).write(xs)) && Table(Builders()).ok(xs)
    ensures BuildersAt(data, p, xs) && |Table(Builders()).write(xs)| == 4 + 284 * |xs|
  {
    hide Lies, HoldsAt, BuilderAt, Builders;
    forall i: nat | i < |xs|
      ensures |Builders().write(xs[i])| == 284
    {
      LiesItself(Builders().write(xs[i]));
      BuilderLies(Builders().write(xs[i]), 0, xs[i]);
    }
    TableLies(data, p, Builders(), xs, 284);
    forall i: nat | i < |xs|
      ensures BuilderAt(data, RowStart(p, 284, i), xs[i])
    {
      BuilderLies(data, RowStart(p, 284, i), xs[i]);
    }
  }

  lemma {:induction false} EntriesLie(data: seq<byte>, p: nat, version: nat, xs: seq<Entry>)
    requires Lies(data, p, Table(Entries(version)).write(xs)) && Table(Entries(version)).ok(xs)
    ensures EntriesAt(data, p, version, xs) && |Table(Entries(version)).write(xs)| == 4 + EntrySize(version) * |xs|
  {
    hide Lies, HoldsAt, EntryAt, Entries;
    forall i: nat | i < |xs|
      ensures |Entries(version).write(xs[i])| == EntrySize(version)
    {
      LiesItself(Entries(version).write(xs[i]));
      EntryLies(Entries(version).write(xs[i]), 0, version, xs[i]);
    }
    TableLies(data, p, Entries(version), xs, EntrySize(version));
    forall i: nat | i < |xs|
      ensures EntryAt(data, RowStart(p, EntrySize(version), i), version, xs[i])
    {
      EntryLies(data, RowStart(p, EntrySize(version), i), version, xs[i]);
    }
  }

  lemma {:induction false} SubsLie(data: seq<byte>, p: nat, xs: seq<seq<nat>>)
    requires Lies(data, p, Table(Record(SUB)).write(xs)) && Table(Record(SUB)).ok(xs)
    ensures SubsAt(data, p, xs) && |Table(Record(SUB)).write(xs)| == 4 + 32 * |xs|
  {
    hide Lies, HoldsAt, SubAt, Record;
    forall i: nat | i < |xs|
      ensures |Record(SUB).write(xs[i])| == 32
    {
      LiesItself(Record(SUB).write(xs[i]));
      SubLies(Record(SUB).write(xs[i]), 0, xs[i]);
    }
    TableLies(data, p, Record(SUB), xs, 32);
    forall i: nat | i < |xs|
      ensures SubAt(data, RowStart(p, 32, i), xs[i])
    {
      SubLies(data, RowStart(p, 32, i), xs[i]);
    }
  }

  lemma {:induction false} PartsLie(data: seq<byte>, p: nat, version: nat, xs: seq<Part>)
    requires Lies(data, p, Table(Parts(version)).write(xs)) && Table(Parts(version)).ok(xs)
    ensures PartsAt(data, p, version, xs) && |Table(Parts(version)).write(xs)| == 4 + PartSize(version) * |xs|
  {
    hide Lies, HoldsAt, PartAt, Parts;
    forall i: nat | i < |xs|
      ensures |Parts(version).write(xs[i])| == PartSize(version)
    {
      LiesItself(Parts(version).write(xs[i]));
      PartLies(Parts(version).write(xs[i]), 0, version, xs[i]);
    }
    TableLies(data, p, Parts(version), xs, PartSize(version));
    forall i: nat | i < |xs|
      ensures PartAt(data, RowStart(p, PartSize(version), i), version, xs[i])
    {
      PartLies(data, RowStart(p, PartSize(version), i), version, xs[i]);
    }
  }

  lemma {:induction false} LodTablesLie(data: seq<byte>, p: nat, xs: seq<LodTable>)
    requires Lies(data, p, Table(LodTables()).write(xs)) && Table(LodTables()).ok(xs)
    ensures LodTablesAt(data, p, xs) && |Table(LodTables()).write(xs)| == 4 + 148 * |xs|
  {
    hide Lies, HoldsAt, LodTableAt, LodTables;
    forall i: nat | i < |xs|
      ensures |LodTables().write(xs[i])| == 148
    {
      LiesItself(LodTables().write(xs[i]));
      LodTableLies(LodTables().write(xs[i]), 0, xs[i]);
    }
    TableLies(data, p, LodTables(), xs, 148);
    forall i: nat | i < |xs|
      ensures LodTableAt(data, RowStart(p, 148, i), xs[i])
    {
      LodTableLies(data, RowStart(p, 148, i), xs[i]);
    }
  }

  // ---------------------------------------------------------------- dumps

  lemma {:induction false} PlaneLies(data: seq<byte>, p: nat, plane: seq<nat>)
    requires Lies(data, p, Record(FOUR_FLOATS).write(plane)) && Record(FOUR_FLOATS).ok(plane)
    ensures PlaneAt(data, p, plane) && |Record(FOUR_FLOATS).write(plane)| == 16
  {
    hide PackAll, HoldsAt, Lies, FieldStart, Size;
    assert FOUR_FLOATS == Of(4, 4);
    RecordLies(data, p, FOUR_FLOATS, plane);
    SameFieldsAt(data, p, 4, 4, plane);
  }

  lemma {:induction false} PlanesLie(data: seq<byte>, p: nat, planes: seq<seq<nat>>)
    requires Lies(data, p, Table(Record(FOUR_FLOATS)).write(planes)) && Table(Record(FOUR_FLOATS)).ok(planes)
    ensures HoldsAt(data, p, 4, |planes|) && |Table(Record(FOUR_FLOATS)).write(planes)| == 4 + 16 * |planes|
    ensures forall i: nat :: i < |planes| ==> PlaneAt(data, p + 4 + 16 * i, planes[i])
  {
    hide Lies, HoldsAt, PlaneAt, Record;
    forall i: nat | i < |planes|
      ensures |Record(FOUR_FLOATS).write(planes[i])| == 16
    {
      LiesItself(Record(FOUR_FLOATS).write(planes[i]));
      PlaneLies(Record(FOUR_FLOATS).write(planes[i]), 0, planes[i]);
    }
    TableLies(data, p, Record(FOUR_FLOATS), planes, 16);
    forall i: nat | i < |planes|
      ensures PlaneAt(data, p + 4 + 16 * i, planes[i])
    {
      assert RowStart(p, 16, i) == p + 4 + 16 * i;
      PlaneLies(data, RowStart(p, 16, i), planes[i]);
    }
  }

  lemma {:induction false} ViewLies(data: seq<byte>, p: nat, v: View)
    requires Lies(data, p, Views(READER.planes).write(v)) && Views(READER.planes).ok(v)
    ensures ViewAt(data, p, v) && |Views(READER.planes).write(v)| == ViewSize(v)
  {
    hide Lies, HoldsAt, PlaneAt, Views, Table, Record;
    var planes := Table(Record(FOUR_FLOATS)).write(v.planes);
    ViewWrites(v);
    LiesSplit(data, p, planes, v.raw);
    PlanesLie(data, p, v.planes);
  }

  lemma ViewWrites(v: View)
    requires Views(READER.planes).ok(v)
    ensures Views(READER.planes).write(v) == Table(Record(FOUR_FLOATS)).write(v.planes) + v.raw
    ensures Table(Record(FOUR_FLOATS)).ok(v.planes) && |v.raw| == 0x6A0
  {
    hide PackAll, WriteMany;
    var bytes := PackAll([4], [|v.planes|]) + WriteMany(Record(FOUR_FLOATS), v.planes);
    assert Planes(READER.planes).write(v.planes) == bytes && Table(Record(FOUR_FLOATS)).write(v.planes) == bytes;
    assert Planes(READER.planes).ok(v.planes);
  }

  lemma {:induction false} ViewsLie(data: seq<byte>, p: nat, views: seq<View>)
    requires Lies(data, p, WriteMany(Views(READER.planes), views)) && AllOk(Views(READER.planes), views)
    ensures ViewsAt(data, p, views) && |WriteMany(Views(READER.planes), views)| == ViewsSize(views)
    decreases views
  {
    hide Lies, ViewAt, Views, ViewSize;
    if views != [] {
      var c := Views(READER.planes);
      LiesSplit(data, p, c.write(views[0]), WriteMany(c, views[1..]));
      ViewLies(data, p, views[0]);
      ViewsLie(data, p + ViewSize(views[0]), views[1..]);
    }
  }

  lemma {:induction false} DumpHeadLies(data: seq<byte>, p: nat, d: Dump)
    requires Lies(data, p, PackAll(DUMP, DumpWords(d))) && Fits(DUMP, DumpWords(d))
    ensures HoldsAt(data, p, 8, d.ctx) && HoldsAt(data, p + 8, 4, d.frame) && HoldsAt(data, p + 12, 4, |d.views|)
    ensures HoldsAt(data, p + 16, 4, d.lodScale) && HoldsAt(data, p + 20, 4, d.faults)
    ensures |d.bitTable| == 64 && forall n: nat :: n < 64 ==> HoldsAt(data, p + 24 + 4 * n, 4, d.bitTable[n])
    ensures |PackAll(DUMP, DumpWords(d))| == 280
  {
    hide PackAll, HoldsAt, Lies, FieldStart, Size, FieldsAt;
    var words := DumpWords(d);
    RecordLies(data, p, DUMP, words);
    FieldsCount(data, p, DUMP, words);
    FieldsSplit(data, p, [8, 4, 4, 4, 4], Of(64, 4), words);
    SizeJoin([8, 4, 4, 4, 4], Of(64, 4));
    FiveFields(data, p, words[..5]);
    SameFieldsAt(data, p + 24, 64, 4, words[5..]);
    assert words[5..] == d.bitTable;
  }

  lemma {:induction false} FiveFields(data: seq<byte>, p: nat, words: seq<nat>)
    requires FieldsAt(data, p, [8, 4, 4, 4, 4], words)
    ensures Size([8, 4, 4, 4, 4]) == 24 && |words| == 5 && HoldsAt(data, p, 8, words[0])
    ensures HoldsAt(data, p + 8, 4, words[1]) && HoldsAt(data, p + 12, 4, words[2])
    ensures HoldsAt(data, p + 16, 4, words[3]) && HoldsAt(data, p + 20, 4, words[4])
  {
    hide HoldsAt, FieldStart, Size;
    Steps([8, 4, 4, 4, 4]);
    assert FieldStart([8, 4, 4, 4, 4], 5) == 24;
  }

  function DumpItems(): Codec<Dump, GateError> { Dumps(DUMP, Views(READER.planes), READER.views) }

  lemma {:induction false} DumpLies(data: seq<byte>, p: nat, d: Dump)
    requires Lies(data, p, DumpItems().write(d)) && DumpItems().ok(d)
    ensures DumpAt(data, p, d) && |DumpItems().write(d)| == DumpSize(d)
  {
    hide Lies, HoldsAt, PackAll, WriteMany, ViewsAt, DumpWords, Views;
    LiesSplit(data, p, PackAll(DUMP, DumpWords(d)), WriteMany(Views(READER.planes), d.views));
    DumpHeadLies(data, p, d);
    ViewsLie(data, p + 280, d.views);
  }

  lemma {:induction false} DumpsLie(data: seq<byte>, p: nat, dumps: seq<Dump>)
    requires Lies(data, p, WriteMany(DumpItems(), dumps)) && AllOk(DumpItems(), dumps)
    ensures DumpsAt(data, p, dumps) && |WriteMany(DumpItems(), dumps)| == DumpsSize(dumps)
    decreases dumps
  {
    hide Lies, DumpAt, DumpItems, DumpSize;
    if dumps != [] {
      var c := DumpItems();
      LiesSplit(data, p, c.write(dumps[0]), WriteMany(c, dumps[1..]));
      DumpLies(data, p, dumps[0]);
      DumpsLie(data, p + DumpSize(dumps[0]), dumps[1..]);
    }
  }

  // ---------------------------------------------------------------- the file

  lemma {:induction false} HeadLies(data: seq<byte>, g: Gate)
    requires Lies(data, 0, MAGIC) && Lies(data, 8, PackAll([4], [g.version])) && g.version in {1, 2, 3}
    requires Lies(data, 12, PackAll(HEADER, [g.first, g.last, g.flags, g.visGlobal]))
    requires Fits(HEADER, [g.first, g.last, g.flags, g.visGlobal])
    requires Lies(data, 28, PackAll(Counters(g.version), g.counts)) && Fits(Counters(g.version), g.counts)
    ensures HeaderAt(data, g) && CountersAt(data, g)
    ensures |PackAll(HEADER, [g.first, g.last, g.flags, g.visGlobal])| == 16
    ensures |PackAll(Counters(g.version), g.counts)| == 4 * |g.counts|
  {
    hide PackAll, HoldsAt, FieldStart, Size;
    var words := [g.first, g.last, g.flags, g.visGlobal];
    NumberLies(data, 8, g.version);
    assert HEADER == Of(4, 4);
    RecordLies(data, 12, HEADER, words);
    SameFieldsAt(data, 12, 4, 4, words);
    assert HoldsAt(data, 12 + 4 * 0, 4, words[0]) && HoldsAt(data, 12 + 4 * 1, 4, words[1]) &&
           HoldsAt(data, 12 + 4 * 2, 4, words[2]) && HoldsAt(data, 12 + 4 * 3, 4, words[3]);
    RecordLies(data, 28, Counters(g.version), g.counts);
    SameFieldsAt(data, 28, |Counters(g.version)|, 4, g.counts);
  }

  lemma {:induction false} SixLie(data: seq<byte>, p: nat, a: seq<byte>, b: seq<byte>, c: seq<byte>, d: seq<byte>,
      e: seq<byte>, f: seq<byte>)
    requires Lies(data, p, a + (b + (c + (d + (e + f)))))
    ensures Lies(data, p, a) && Lies(data, p + |a|, b) && Lies(data, p + |a| + |b|, c)
    ensures Lies(data, p + |a| + |b| + |c|, d) && Lies(data, p + |a| + |b| + |c| + |d|, e)
    ensures Lies(data, p + |a| + |b| + |c| + |d| + |e|, f)
  {
    hide Lies;
    LiesSplit(data, p, a, b + (c + (d + (e + f))));
    LiesSplit(data, p + |a|, b, c + (d + (e + f)));
    LiesSplit(data, p + |a| + |b|, c, d + (e + f));
    LiesSplit(data, p + |a| + |b| + |c|, d, e + f);
    LiesSplit(data, p + |a| + |b| + |c| + |d|, e, f);
  }

  lemma TailPieces(v: nat, x: Tail)
    ensures TailOf(v).write(x) == Table(Tests()).write(x.0) + (Table(Builders()).write(x.1.0) +
      (Table(Entries(v)).write(x.1.1.0) + (Table(Record(SUB)).write(x.1.1.1.0) +
        (Optional(v >= 2, Table(Parts(v))).write(x.1.1.1.1.0) +
          Optional(v >= 3, Table(LodTables())).write(x.1.1.1.1.1)))))
    ensures TailOf(v).ok(x) ==>
      Table(Tests()).ok(x.0) && Table(Builders()).ok(x.1.0) && Table(Entries(v)).ok(x.1.1.0) &&
      Table(Record(SUB)).ok(x.1.1.1.0) && Optional(v >= 2, Table(Parts(v))).ok(x.1.1.1.1.0) &&
      Optional(v >= 3, Table(LodTables())).ok(x.1.1.1.1.1)
  {
    hide Tests, Builders, Entries, Record, Parts, LodTables, Counted, Optional;
  }

  lemma AbsentIsEmpty<T>(present: bool, c: Codec<seq<T>, GateError>, xs: seq<T>)
    requires Optional(present, c).ok(xs)
    ensures if present then c.ok(xs) && Optional(present, c).write(xs) == c.write(xs)
      else xs == [] && Optional(present, c).write(xs) == []
  {
  }

  /** The sections from the tests on. */
  lemma {:induction false} TailLies(data: seq<byte>, g: Gate)
    requires Lies(data, TestsStart(g), TailOf(g.version).write(Sections(g).1.1.1))
    requires TailOf(g.version).ok(Sections(g).1.1.1)
    ensures TestsAt(data, TestsStart(g), g.tests) && BuildersAt(data, BuildersStart(g), g.builders)
    ensures EntriesAt(data, EntriesStart(g), g.version, g.entries) && SubsAt(data, SubsStart(g), g.subs)
    ensures if g.version >= 2 then PartsAt(data, PartsStart(g), g.version, g.parts) else g.parts == []
    ensures if g.version >= 3 then LodTablesAt(data, TablesStart(g), g.tables) else g.tables == []
    ensures TestsStart(g) + |TailOf(g.version).write(Sections(g).1.1.1)| == EndStart(g)
  {
    hide Lies, TestsAt, BuildersAt, EntriesAt, SubsAt, PartsAt, LodTablesAt, Tests, Builders, Entries, Parts, LodTables,
      Record, Counted, Optional, TailOf, DumpsStart, DumpsSize, TestsStart;
    var v, p := g.version, TestsStart(g);
    TailPieces(v, Sections(g).1.1.1);
    var tests, builders := Table(Tests()).write(g.tests), Table(Builders()).write(g.builders);
    var entries, subs := Table(Entries(v)).write(g.entries), Table(Record(SUB)).write(g.subs);
    var parts := Optional(v >= 2, Table(Parts(v))).write(g.parts);
    var tables := Optional(v >= 3, Table(LodTables())).write(g.tables);
    SixLie(data, p, tests, builders, entries, subs, parts, tables);
    TestsLie(data, p, g.tests);
    BuildersLie(data, BuildersStart(g), g.builders);
    EntriesLie(data, EntriesStart(g), v, g.entries);
    SubsLie(data, SubsStart(g), g.subs);
    AbsentIsEmpty(v >= 2, Table(Parts(v)), g.parts);
    if v >= 2 {
      PartsLie(data, PartsStart(g), v, g.parts);
    }
    AbsentIsEmpty(v >= 3, Table(LodTables()), g.tables);
    if v >= 3 {
      LodTablesLie(data, TablesStart(g), g.tables);
    }
  }

  lemma {:induction false} GatePieces(data: seq<byte>, g: Gate)
    requires Encodable(g) && PackGate(g) == data
    ensures var head := PackAll(HEADER, [g.first, g.last, g.flags, g.visGlobal]);
      var counts := PackAll(Counters(g.version), g.counts);
      var dumps, tail := DumpList(READER).write(g.dumps), TailOf(g.version).write(Sections(g).1.1.1);
      data == MAGIC + (PackAll([4], [g.version]) + (head + (counts + (dumps + (tail + END))))) &&
      g.version in {1, 2, 3} && Fits(HEADER, [g.first, g.last, g.flags, g.visGlobal]) &&
      Fits(Counters(g.version), g.counts) && DumpList(READER).ok(g.dumps) && TailOf(g.version).ok(Sections(g).1.1.1)
  {
    hide PackAll, TailOf, DumpList, Counters, Fits;
    var head := PackAll(HEADER, [g.first, g.last, g.flags, g.visGlobal]);
    var counts := PackAll(Counters(g.version), g.counts);
    var dumps, tail := DumpList(READER).write(g.dumps), TailOf(g.version).write(Sections(g).1.1.1);
    assert BodyOf(g.version).write(Sections(g)) == head + (counts + (dumps + tail));
    Regroup(MAGIC, PackAll([4], [g.version]), head, counts, dumps, tail, END);
  }

  lemma Regroup(a: seq<byte>, b: seq<byte>, c: seq<byte>, d: seq<byte>, e: seq<byte>, f: seq<byte>, g: seq<byte>)
    ensures a + b + (c + (d + (e + f))) + g == a + (b + (c + (d + (e + (f + g)))))
  {
  }

  lemma {:induction false} DumpListLies(data: seq<byte>, p: nat, dumps: seq<Dump>)
    requires Lies(data, p, DumpList(READER).write(dumps)) && DumpList(READER).ok(dumps)
    ensures HoldsAt(data, p, 4, |dumps|) && DumpsAt(data, p + 4, dumps)
    ensures |DumpList(READER).write(dumps)| == 4 + DumpsSize(dumps)
  {
    hide Lies, HoldsAt, PackAll, WriteMany, Dumps, DumpsAt, DumpsSize;
    LiesSplit(data, p, PackAll([4], [|dumps|]), WriteMany(DumpItems(), dumps));
    NumberLies(data, p, |dumps|);
    DumpsLie(data, p + 4, dumps);
  }

  /** Of an accepted file every number lies where the format has it, whatever else the reader makes of it. */
  lemma {:induction false} AcceptedBytes(data: seq<byte>, g: Gate)
    requires ParseGate(data) == Ok(g)
    ensures HeaderAt(data, g) && CountersAt(data, g) && SectionsAt(data, g)
  {
    hide HeaderAt, CountersAt, Lies, TailOf, ParseGate, Counters, DumpsAt, HoldsAt, PackAll, DumpsSize, EndStart,
      TestsAt, BuildersAt, EntriesAt, SubsAt, PartsAt, LodTablesAt, TestsStart, DumpList, PackGate, Encodable, Fits,
      ReferencesInRange, DistinctTables;
    ReadIsWritten(data);
    GatePieces(data, g);
    var version, head := PackAll([4], [g.version]), PackAll(HEADER, [g.first, g.last, g.flags, g.visGlobal]);
    var counts := PackAll(Counters(g.version), g.counts);
    var dumps, tail := DumpList(READER).write(g.dumps), TailOf(g.version).write(Sections(g).1.1.1);
    LiesItself(data);
    LiesSplit(data, 0, MAGIC, version + (head + (counts + (dumps + (tail + END)))));
    NumberSize(g.version);
    HeadSizes(g);
    SixLie(data, 8, version, head, counts, dumps, tail, END);
    HeadLies(data, g);
    DumpListLies(data, DumpsStart(g), g.dumps);
    StartOfTests(g);
    TailLies(data, g);
    assert Lies(data, EndStart(g), END);
    LiesLast(data, EndStart(g), END, |MAGIC| + |version| + |head| + |counts| + |dumps| + |tail|);
  }

  lemma StartOfTests(g: Gate)
    ensures TestsStart(g) == DumpsStart(g) + 4 + DumpsSize(g.dumps)
  {
  }

  lemma NumberSize(v: nat)
    ensures |PackAll([4], [v])| == 4
  {
    Steps([4]);
    assert FieldStart([4], 1) == 4;
  }

  lemma {:induction false} HeadSizes(g: Gate)
    requires Fits(Counters(g.version), g.counts)
    ensures |PackAll(HEADER, [g.first, g.last, g.flags, g.visGlobal])| == 16
    ensures |PackAll(Counters(g.version), g.counts)| == 4 * |g.counts|
  {
    hide PackAll, Size;
    assert HEADER == Of(4, 4);
    SizeOfSame(4, 4);
    SizeOfSame(|Counters(g.version)|, 4);
  }

  lemma LiesLast(data: seq<byte>, p: nat, bytes: seq<byte>, n: nat)
    requires Lies(data, p, bytes) && p == n && |data| == n + |bytes|
    ensures data[p..] == bytes
  {
  }

  /** And what it says is within the bounds of the format: the counts of a dump, and every reference to a row. */
  lemma {:induction false} AcceptedBounds(data: seq<byte>, g: Gate)
    requires ParseGate(data) == Ok(g)
    ensures g.version in {1, 2, 3} && |g.dumps| <= 16
    ensures forall d :: d in g.dumps ==> |d.views| <= 64 && forall v :: v in d.views ==> |v.planes| <= 32
    ensures forall b :: b in g.builders ==> b.entriesCopied == 0 || b.entryFirst + b.entriesCopied <= |g.entries|
    ensures forall e :: e in g.entries ==> e.subCopied == 0 || e.subFirst + e.subCopied <= |g.subs|
    ensures forall p :: p in g.parts ==> p.builder == 0xFFFF_FFFF || p.builder < |g.builders|
    ensures forall i: nat, j: nat :: i < j < |g.tables| ==> g.tables[i].table != g.tables[j].table
  {
    hide ParseGate, PackGate, TailOf, Views, Counters;
    ReadIsWritten(data);
    DumpsWithin(g);
  }

  lemma {:induction false} DumpsWithin(g: Gate)
    requires Encodable(g)
    ensures |g.dumps| <= 16
    ensures forall d :: d in g.dumps ==> |d.views| <= 64 && forall v :: v in d.views ==> |v.planes| <= 32
  {
    hide TailOf, Counters, PackAll, Fits;
    assert DumpList(READER).ok(g.dumps);
    forall d | d in g.dumps
      ensures |d.views| <= 64 && forall v :: v in d.views ==> |v.planes| <= 32
    {
      assert DumpItems().ok(d);
      forall v | v in d.views
        ensures |v.planes| <= 32
      {
        assert Views(READER.planes).ok(v);
        assert Planes(READER.planes).ok(v.planes);
      }
    }
  }

  /** Neither less nor more is asked of the references. */
  lemma ReferencesIff(g: Gate)
    ensures ReferencesInRange(g) <==>
      (forall i: nat :: i < |g.builders| && g.builders[i].entriesCopied > 0 ==>
        g.builders[i].entryFirst + g.builders[i].entriesCopied <= |g.entries|) &&
      (forall i: nat :: i < |g.entries| && g.entries[i].subCopied > 0 ==>
        g.entries[i].subFirst + g.entries[i].subCopied <= |g.subs|) &&
      (forall i: nat :: i < |g.parts| ==> g.parts[i].builder < |g.builders| || g.parts[i].builder == 0xFFFF_FFFF)
  {
  }

  /** Nor of the counts: sixteen dumps, sixty-four views in each, thirty-two planes in each of these. */
  lemma {:induction false} DumpsIff(dumps: seq<Dump>)
    ensures DumpList(READER).ok(dumps) <==> |dumps| <= 16 && forall i: nat :: i < |dumps| ==>
      Fits(DUMP, DumpWords(dumps[i])) && |dumps[i].views| <= 64 &&
      forall j: nat :: j < |dumps[i].views| ==> ViewWithin(dumps[i].views[j])
  {
    hide Fits, DumpWords, ViewWithin, Views;
    forall i: nat | i < |dumps|
      ensures DumpItems().ok(dumps[i]) <==>
        Fits(DUMP, DumpWords(dumps[i])) && |dumps[i].views| <= 64 && AllOk(Views(READER.planes), dumps[i].views)
      ensures AllOk(Views(READER.planes), dumps[i].views) <==>
        forall j: nat :: j < |dumps[i].views| ==> ViewWithin(dumps[i].views[j])
    {
      ViewsIff(dumps[i].views);
    }
    assert DumpList(READER).ok(dumps) <==> |dumps| <= 16 && AllOk(DumpItems(), dumps);
  }

  predicate ViewWithin(v: View) {
    |v.planes| <= 32 && |v.raw| == 0x6A0 && forall i: nat :: i < |v.planes| ==> Fits(FOUR_FLOATS, v.planes[i])
  }

  lemma {:induction false} ViewsIff(views: seq<View>)
    ensures AllOk(Views(READER.planes), views) <==> forall j: nat :: j < |views| ==> ViewWithin(views[j])
  {
    hide Fits;
    forall j: nat | j < |views|
      ensures Views(READER.planes).ok(views[j]) <==> ViewWithin(views[j])
    {
      var v := views[j];
      assert Planes(READER.planes).ok(v.planes) <==> |v.planes| <= 32 && AllOk(Record(FOUR_FLOATS), v.planes);
    }
  }
}
