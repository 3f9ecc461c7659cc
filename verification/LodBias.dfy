/**
 The LOD-bias estimate of tools/cull_gate_probe.py.

 The part test passes a part while its LOD distance f is at most t0, the first
 entry of the LOD table of the part's model. The table itself is often not
 recorded, so the tool brackets t0 per model from the rows it has, pushes the
 bracket through the biased test of every row, and reports how many draws the
 bias removes as an interval. Floats are modelled by reals.
 */
module LodBias {
  import opened Prelude

  // ---------------------------------------------------------------- LOD tables

  datatype TableFields = TableFields(t: seq<real>, count: nat)

  /** A decoded table always has eight thresholds: t[0] rejects, t[1..] pick the level. */
  type LodTable = table: TableFields | |table.t| == 8
    witness TableFields([0.0, 0.0, 0.0, 0.0, 0.0, 0.0, 0.0, 0.0], 0)

  /** The first level from i on whose threshold f does not exceed, else the level count. */
  function FirstLevel(table: LodTable, f: real, i: nat): (level: nat)
    requires i <= table.count <= 7
    ensures i <= level <= table.count
    ensures forall j :: i < j <= level ==> table.t[j] < f
    ensures level < table.count ==> f <= table.t[level + 1]
    decreases table.count - i
  {
    if i == table.count then i
    else if !(table.t[i + 1] < f) then i
    else FirstLevel(table, f, i + 1)
  }

  /** The third term of the part test on one table: passed and level; None when the count runs past the table. */
  function TablePick(table: LodTable, f: real): Option<(bool, nat)> {
    if table.count > 7 then None
    else if table.t[0] < f then Some((false, 0))
    else Some((true, FirstLevel(table, f, 0)))
  }

  /**
   A part passes while f does not exceed the first threshold, at the first level whose next one it does not exceed.
   */
  lemma PickIs(table: LodTable, f: real)
    ensures TablePick(table, f).Some? <==> table.count <= 7
    ensures TablePick(table, f).Some? ==> PickedAt(table, f, TablePick(table, f).value)
  {
  }

  predicate PickedAt(table: LodTable, f: real, pick: (bool, nat))
    requires table.count <= 7
  {
    if table.t[0] < f then
      pick == (false, 0)
    else
      pick.0 && pick.1 <= table.count && (forall j :: 0 < j <= pick.1 ==> table.t[j] < f) &&
      (pick.1 < table.count ==> f <= table.t[pick.1 + 1])
  }

  lemma PickIsMonotone(table: LodTable, f: real, g: real)
    requires table.count <= 7 && f <= g
    requires TablePick(table, g).value.0
    ensures TablePick(table, f).value.0
    ensures TablePick(table, f).value.1 <= TablePick(table, g).value.1
  {
    var level := FirstLevel(table, f, 0);
    assert FirstLevel(table, g, 0) < level ==> table.t[FirstLevel(table, g, 0) + 1] < f;
  }

  // ---------------------------------------------------------------- rows

  /** One part row with the terms the tool recomputes for it. */
  datatype Row = Row(
    ok: bool, passed: bool, sizeOk: bool, inside: bool, model: nat, f: real, lod: nat,
    A: real, d: real, B: real, R: real, s: real, tab: Option<LodTable>)

  predicate PassRow(r: Row) { r.ok && r.model != 0 && r.passed }

  predicate RejectRow(r: Row) { r.ok && r.model != 0 && r.sizeOk && r.inside && !r.passed }

  /** t0 (by model) accounts for every verdict the brackets look at. */
  ghost predicate Explains(rows: seq<Row>, t0: nat -> real) {
    forall i :: 0 <= i < |rows| ==>
      (PassRow(rows[i]) ==> rows[i].f <= t0(rows[i].model)) &&
      (RejectRow(rows[i]) ==> t0(rows[i].model) < rows[i].f)
  }

  /**
   Of the rows that check out and name a model: what passed is within, and what is within and tested for it passed.
   */
  lemma ExplainsIff(rows: seq<Row>, t0: nat -> real)
    ensures Explains(rows, t0) <==>
      forall i: nat :: i < |rows| && rows[i].ok && rows[i].model != 0 ==>
        (rows[i].passed ==> rows[i].f <= t0(rows[i].model)) &&
        (rows[i].sizeOk && rows[i].inside && rows[i].f <= t0(rows[i].model) ==> rows[i].passed)
  {
  }

  /** A row that names a usable table is judged by that table alone. */
  predicate Tabled(r: Row) { r.tab.Some? && r.tab.value.count <= 7 }

  // ---------------------------------------------------------------- the brackets

  datatype Brackets = Brackets(lo: map<nat, real>, hi: map<nat, real>)

  /** lo[m] is the largest f among the passing rows of m, and m has one. */
  ghost predicate LargestPass(rows: seq<Row>, lo: map<nat, real>) {
    (forall i :: 0 <= i < |rows| && PassRow(rows[i]) ==> rows[i].model in lo && rows[i].f <= lo[rows[i].model]) &&
    (forall m :: m in lo ==>
      exists i :: 0 <= i < |rows| && PassRow(rows[i]) && rows[i].model == m && rows[i].f == lo[m])
  }

  /** hi[m] is the smallest f among the rows of m only the third term can have rejected. */
  ghost predicate SmallestReject(rows: seq<Row>, hi: map<nat, real>) {
    (forall i :: 0 <= i < |rows| && RejectRow(rows[i]) ==> rows[i].model in hi && hi[rows[i].model] <= rows[i].f) &&
    (forall m :: m in hi ==>
      exists i :: 0 <= i < |rows| && RejectRow(rows[i]) && rows[i].model == m && rows[i].f == hi[m])
  }

  ghost predicate BracketsOf(rows: seq<Row>, br: Brackets) {
    LargestPass(rows, br.lo) && SmallestReject(rows, br.hi)
  }

  function Conflicts(br: Brackets): set<nat> {
    set m | m in br.hi && m in br.lo && br.lo[m] >= br.hi[m]
  }

  /** A model with two passing rows where the larger f has the lower level. */
  ghost predicate Inverted(rows: seq<Row>, m: nat) {
    exists i, j :: 0 <= i < |rows| && 0 <= j < |rows| && PassRow(rows[i]) && PassRow(rows[j]) &&
      rows[i].model == m && rows[j].model == m && rows[i].lod < rows[j].lod && rows[j].f < rows[i].f
  }

  ghost function Inversions(rows: seq<Row>, models: set<nat>): set<nat> {
    set m | m in models && Inverted(rows, m)
  }

  /** The f range of each level among n (f, level) pairs. */
  ghost predicate LevelRanges(fl: seq<(real, nat)>, top: map<nat, (real, real)>) {
    (forall i :: 0 <= i < |fl| ==> fl[i].1 in top && top[fl[i].1].0 <= fl[i].0 <= top[fl[i].1].1) &&
    (forall l :: l in top ==> exists i :: 0 <= i < |fl| && fl[i] == (top[l].0, l)) &&
    (forall l :: l in top ==> exists i :: 0 <= i < |fl| && fl[i] == (top[l].1, l))
  }

  /** The (f, level) pairs gathered per model are exactly those of the passing rows. */
  ghost predicate PassingPairs(rows: seq<Row>, nib: map<nat, seq<(real, nat)>>) {
    (forall i :: 0 <= i < |rows| && PassRow(rows[i]) ==>
      rows[i].model in nib && (rows[i].f, rows[i].lod) in nib[rows[i].model]) &&
    (forall m, p :: m in nib && p in nib[m] ==>
      exists i :: 0 <= i < |rows| && PassRow(rows[i]) && rows[i].model == m && (rows[i].f, rows[i].lod) == p)
  }

  method GatherPasses(rows: seq<Row>) returns (lo: map<nat, real>, nib: map<nat, seq<(real, nat)>>)
    ensures LargestPass(rows, lo) && PassingPairs(rows, nib) && nib.Keys == lo.Keys
  {
    lo, nib := map[], map[];
    for i := 0 to |rows|
      invariant LargestPass(rows[..i], lo)
      invariant PassingPairs(rows[..i], nib)
      invariant nib.Keys == lo.Keys
    {
      var r := rows[i];
      assert rows[..i + 1] == rows[..i] + [r];
      if PassRow(r) {
        var was, old' := lo, nib;
        lo := lo[r.model := if r.model in lo && lo[r.model] > r.f then lo[r.model] else r.f];
        nib := nib[r.model := (if r.model in nib then nib[r.model] else []) + [(r.f, r.lod)]];
        StepLargestPass(rows[..i], r, was, lo);
        StepPassingPairs(rows[..i], r, old', nib);
      } else {
        SkipLargestPass(rows[..i], r, lo);
        SkipPassingPairs(rows[..i], r, nib);
      }
    }
    assert rows[..|rows|] == rows;
  }

  lemma StepLargestPass(rows: seq<Row>, r: Row, was: map<nat, real>, lo: map<nat, real>)
    requires LargestPass(rows, was) && PassRow(r)
    requires lo == was[r.model := if r.model in was && was[r.model] > r.f then was[r.model] else r.f]
    ensures LargestPass(rows + [r], lo)
  {
    var all := rows + [r];
    assert all[|rows|] == r;
    forall m | m in lo
      ensures exists i :: 0 <= i < |all| && PassRow(all[i]) && all[i].model == m && all[i].f == lo[m]
    {
      if m in was && lo[m] == was[m] {
        var i :| 0 <= i < |rows| && PassRow(rows[i]) && rows[i].model == m && rows[i].f == was[m];
        assert all[i] == rows[i];
      }
    }
  }

  lemma StepPassingPairs(rows: seq<Row>, r: Row, was: map<nat, seq<(real, nat)>>, nib: map<nat, seq<(real, nat)>>)
    requires PassingPairs(rows, was) && PassRow(r)
    requires nib == was[r.model := (if r.model in was then was[r.model] else []) + [(r.f, r.lod)]]
    ensures PassingPairs(rows + [r], nib)
  {
    var all := rows + [r];
    assert all[|rows|] == r;
    assert (r.f, r.lod) in nib[r.model];
    forall m, p | m in nib && p in nib[m]
      ensures exists i :: 0 <= i < |all| && PassRow(all[i]) && all[i].model == m && (all[i].f, all[i].lod) == p
    {
      if m in was && p in was[m] {
        var i :| 0 <= i < |rows| && PassRow(rows[i]) && rows[i].model == m && (rows[i].f, rows[i].lod) == p;
        assert all[i] == rows[i];
      }
    }
  }

  lemma SkipLargestPass(rows: seq<Row>, r: Row, lo: map<nat, real>)
    requires LargestPass(rows, lo) && !PassRow(r)
    ensures LargestPass(rows + [r], lo)
  {
    var all := rows + [r];
    forall m | m in lo
      ensures exists i :: 0 <= i < |all| && PassRow(all[i]) && all[i].model == m && all[i].f == lo[m]
    {
      var i :| 0 <= i < |rows| && PassRow(rows[i]) && rows[i].model == m && rows[i].f == lo[m];
      assert all[i] == rows[i];
    }
  }

  lemma SkipPassingPairs(rows: seq<Row>, r: Row, nib: map<nat, seq<(real, nat)>>)
    requires PassingPairs(rows, nib) && !PassRow(r)
    ensures PassingPairs(rows + [r], nib)
  {
    var all := rows + [r];
    forall m, p | m in nib && p in nib[m]
      ensures exists i :: 0 <= i < |all| && PassRow(all[i]) && all[i].model == m && (all[i].f, all[i].lod) == p
    {
      var i :| 0 <= i < |rows| && PassRow(rows[i]) && rows[i].model == m && (rows[i].f, rows[i].lod) == p;
      assert all[i] == rows[i];
    }
  }

  method GatherRejects(rows: seq<Row>) returns (hi: map<nat, real>)
    ensures SmallestReject(rows, hi)
  {
    hi := map[];
    for i := 0 to |rows|
      invariant SmallestReject(rows[..i], hi)
    {
      var r := rows[i];
      assert rows[..i + 1] == rows[..i] + [r];
      ghost var was := hi;
      if RejectRow(r) {
        hi := hi[r.model := if r.model in hi && hi[r.model] < r.f then hi[r.model] else r.f];
      }
      StepSmallestReject(rows[..i], r, was, hi);
    }
    assert rows[..|rows|] == rows;
  }

  lemma StepSmallestReject(rows: seq<Row>, r: Row, was: map<nat, real>, hi: map<nat, real>)
    requires SmallestReject(rows, was)
    requires hi == if !RejectRow(r) then was
                   else was[r.model := if r.model in was && was[r.model] < r.f then was[r.model] else r.f]
    ensures SmallestReject(rows + [r], hi)
  {
    var all := rows + [r];
    assert all[|rows|] == r;
    forall m | m in hi
      ensures exists i :: 0 <= i < |all| && RejectRow(all[i]) && all[i].model == m && all[i].f == hi[m]
    {
      if m in was && hi[m] == was[m] {
        var i :| 0 <= i < |rows| && RejectRow(rows[i]) && rows[i].model == m && rows[i].f == was[m];
        assert all[i] == rows[i];
      }
    }
  }

  /** Some pair has a lower level at a larger f. */
  ghost predicate Falls(fl: seq<(real, nat)>) {
    exists i, j :: 0 <= i < |fl| && 0 <= j < |fl| && fl[i].1 < fl[j].1 && fl[j].0 < fl[i].0
  }

  /** Whether some level's range reaches above the bottom of a higher level's. */
  method LevelsFall(fl: seq<(real, nat)>) returns (fall: bool)
    ensures fall <==> Falls(fl)
  {
    var top: map<nat, (real, real)> := map[];
    for i := 0 to |fl|
      invariant LevelRanges(fl[..i], top)
    {
      var (fv, level) := fl[i];
      ghost var was := top;
      var range := if level in top then top[level] else (fv, fv);
      top := top[level := (if fv < range.0 then fv else range.0, if range.1 < fv then fv else range.1)];
      assert fl[..i + 1] == fl[..i] + [fl[i]];
      StepLevelRanges(fl[..i], fl[i], was, top);
    }
    assert fl[..|fl|] == fl;
    fall := exists a, b :: a in top && b in top && a < b && top[b].0 < top[a].1;
    RangesDecide(fl, top);
  }

  lemma StepLevelRanges(fl: seq<(real, nat)>, p: (real, nat), was: map<nat, (real, real)>, top: map<nat, (real, real)>)
    requires LevelRanges(fl, was)
    requires var range := if p.1 in was then was[p.1] else (p.0, p.0);
      top == was[p.1 := (if p.0 < range.0 then p.0 else range.0, if range.1 < p.0 then p.0 else range.1)]
    ensures LevelRanges(fl + [p], top)
  {
    var all := fl + [p];
    assert all[|fl|] == p;
    forall l | l in top
      ensures exists i :: 0 <= i < |all| && all[i] == (top[l].0, l)
      ensures exists i :: 0 <= i < |all| && all[i] == (top[l].1, l)
    {
      if l in was {
        var i :| 0 <= i < |fl| && fl[i] == (was[l].0, l);
        var j :| 0 <= j < |fl| && fl[j] == (was[l].1, l);
        assert all[i] == fl[i] && all[j] == fl[j];
      }
    }
  }

  lemma RangesDecide(fl: seq<(real, nat)>, top: map<nat, (real, real)>)
    requires LevelRanges(fl, top)
    ensures (exists a, b :: a in top && b in top && a < b && top[b].0 < top[a].1) <==> Falls(fl)
  {
    if a, b :| a in top && b in top && a < b && top[b].0 < top[a].1 {
      var i :| 0 <= i < |fl| && fl[i] == (top[a].1, a);
      var j :| 0 <= j < |fl| && fl[j] == (top[b].0, b);
      assert fl[i].1 < fl[j].1 && fl[j].0 < fl[i].0;
    }
    if i, j :| 0 <= i < |fl| && 0 <= j < |fl| && fl[i].1 < fl[j].1 && fl[j].0 < fl[i].0 {
      assert top[fl[j].1].0 < top[fl[i].1].1;
    }
  }

  method CountInversions(rows: seq<Row>, nib: map<nat, seq<(real, nat)>>) returns (inversions: nat)
    requires PassingPairs(rows, nib)
    ensures inversions == |Inversions(rows, nib.Keys)|
  {
    inversions := 0;
    var todo := nib.Keys;
    while todo != {}
      invariant todo <= nib.Keys
      invariant inversions == |Inversions(rows, nib.Keys - todo)|
    {
      var m :| m in todo;
      var fall := LevelsFall(nib[m]);
      PairsShowInversion(rows, nib, m);
      CountOneMore(rows, nib.Keys - todo, m);
      assert nib.Keys - (todo - {m}) == nib.Keys - todo + {m};
      todo := todo - {m};
      if fall {
        inversions := inversions + 1;
      }
    }
    assert nib.Keys - todo == nib.Keys;
  }

  /** The brackets of every model, and how many models contradict one monotone table. */
  method T0Brackets(rows: seq<Row>) returns (br: Brackets, conflicts: nat, inversions: nat, models: nat)
    ensures BracketsOf(rows, br)
    ensures conflicts == |Conflicts(br)|
    ensures inversions == |Inversions(rows, br.lo.Keys)|
    ensures models == |br.lo.Keys + br.hi.Keys|
  {
    var lo, nib := GatherPasses(rows);
    var hi := GatherRejects(rows);
    br := Brackets(lo, hi);
    conflicts := |set m | m in hi && m in lo && lo[m] >= hi[m]|;
    inversions := CountInversions(rows, nib);
    models := |lo.Keys + hi.Keys|;
  }

  lemma CountOneMore(rows: seq<Row>, models: set<nat>, m: nat)
    requires m !in models
    ensures |Inversions(rows, models + {m})| == |Inversions(rows, models)| + if Inverted(rows, m) then 1 else 0
  {
    assert Inversions(rows, models + {m}) == Inversions(rows, models) + if Inverted(rows, m) then {m} else {};
  }

  lemma PairsShowInversion(rows: seq<Row>, nib: map<nat, seq<(real, nat)>>, m: nat)
    requires PassingPairs(rows, nib) && m in nib
    ensures Inverted(rows, m) <==> Falls(nib[m])
  {
    if Falls(nib[m]) {
      FallShowsInversion(rows, nib, m);
    }
    if Inverted(rows, m) {
      InversionShowsFall(rows, nib, m);
    }
  }

  lemma FallShowsInversion(rows: seq<Row>, nib: map<nat, seq<(real, nat)>>, m: nat)
    requires PassingPairs(rows, nib) && m in nib && Falls(nib[m])
    ensures Inverted(rows, m)
  {
    var fl := nib[m];
    var i, j :| 0 <= i < |fl| && 0 <= j < |fl| && fl[i].1 < fl[j].1 && fl[j].0 < fl[i].0;
    var p, q := fl[i], fl[j];
    assert p in nib[m] && q in nib[m];
    var a :| 0 <= a < |rows| && PassRow(rows[a]) && rows[a].model == m && (rows[a].f, rows[a].lod) == p;
    var b :| 0 <= b < |rows| && PassRow(rows[b]) && rows[b].model == m && (rows[b].f, rows[b].lod) == q;
    assert rows[a].lod < rows[b].lod && rows[b].f < rows[a].f;
  }

  lemma InversionShowsFall(rows: seq<Row>, nib: map<nat, seq<(real, nat)>>, m: nat)
    requires PassingPairs(rows, nib) && m in nib && Inverted(rows, m)
    ensures Falls(nib[m])
  {
    var a, b :| 0 <= a < |rows| && 0 <= b < |rows| && PassRow(rows[a]) && PassRow(rows[b]) &&
                rows[a].model == m && rows[b].model == m && rows[a].lod < rows[b].lod && rows[b].f < rows[a].f;
    var p, q := (rows[a].f, rows[a].lod), (rows[b].f, rows[b].lod);
    assert p in nib[m] && q in nib[m];
    var i :| 0 <= i < |nib[m]| && nib[m][i] == p;
    var j :| 0 <= j < |nib[m]| && nib[m][j] == q;
    assert nib[m][i].1 < nib[m][j].1 && nib[m][j].0 < nib[m][i].0;
  }

  /** No conflict is exactly the existence of a t0 per model that explains the rows. */
  lemma NoConflictIffExplained(rows: seq<Row>, br: Brackets)
    requires BracketsOf(rows, br)
    ensures Conflicts(br) == {} <==> exists t0 :: Explains(rows, t0)
  {
    if Conflicts(br) == {} {
      ExplainedFromBelow(rows, br, 1.0);
    }
    if t0 :| Explains(rows, t0) {
      forall m | m in br.lo && m in br.hi
        ensures br.lo[m] < br.hi[m]
      {
        var i :| 0 <= i < |rows| && PassRow(rows[i]) && rows[i].model == m && rows[i].f == br.lo[m];
        var j :| 0 <= j < |rows| && RejectRow(rows[j]) && rows[j].model == m && rows[j].f == br.hi[m];
      }
    }
  }

  /** Every verdict and level of the counted rows comes from one table per model. */
  ghost predicate GeneratedBy(rows: seq<Row>, tables: nat -> LodTable) {
    forall i :: 0 <= i < |rows| && (PassRow(rows[i]) || RejectRow(rows[i])) ==>
      var pick := TablePick(tables(rows[i].model), rows[i].f);
      pick.Some? && pick.value.0 == rows[i].passed && (rows[i].passed ==> pick.value.1 == rows[i].lod)
  }

  /** Rows of one table per model never contradict each other, whatever its thresholds. */
  lemma OneTableNeverContradicts(rows: seq<Row>, br: Brackets, tables: nat -> LodTable)
    requires BracketsOf(rows, br) && GeneratedBy(rows, tables)
    ensures Conflicts(br) == {}
    ensures forall m :: !Inverted(rows, m)
  {
    var t0 := (m: nat) => tables(m).t[0];
    assert Explains(rows, t0);
    NoConflictIffExplained(rows, br);
    forall m | Inverted(rows, m)
      ensures false
    {
      var i, j :| 0 <= i < |rows| && 0 <= j < |rows| && PassRow(rows[i]) && PassRow(rows[j]) &&
        rows[i].model == m && rows[j].model == m && rows[i].lod < rows[j].lod && rows[j].f < rows[i].f;
      PickIsMonotone(tables(m), rows[j].f, rows[i].f);
    }
  }

  // ---------------------------------------------------------------- biased verdicts

  datatype Form = Size | Scale | Distance

  datatype Eye = EyeA | EyeB

  /** Engine record, entry index, sub-item index. */
  type PartKey = (nat, nat, nat)

  const SIZE_FACTOR := 0.5

  /** The LOD distance the biased test compares with t0. */
  function Scaled(k: real, f: real): real { k * f }

  /** The screen-size term under the bias, which the distance form leaves alone. */
  predicate SizeHolds(k: real, form: Form, r: Row) {
    form.Distance? || SIZE_FACTOR * (k * r.A * r.d + r.B) <= r.R
  }

  /** How the t0 half of a row without a table is read: for certain, possibly, or with a t0 for each model filled in. */
  datatype Reading = Sure(br: Brackets) | Maybe(br: Brackets) | Filled(t0: nat -> real)

  predicate RowKept(k: real, form: Form, r: Row, reading: Reading) {
    r.passed && SizeHolds(k, form, r) && (form.Size? || DistanceHolds(Scaled(k, r.f), r, reading))
  }

  /** The third term at a distance: by the row's own table if it names one, else as the reading has it. */
  predicate DistanceHolds(f: real, r: Row, reading: Reading) {
    if Tabled(r) then TablePick(r.tab.value, f).value.0
    else
      match reading
      case Filled(t0) => f <= t0(r.model)
      case Sure(br) => r.model in br.lo && f <= br.lo[r.model]
      case Maybe(br) => r.model in br.hi ==> f < br.hi[r.model]
  }

  /** The rows of each part in each eye, and the parts the engine admitted there. */
  datatype Parts = Parts(keys: seq<PartKey>, rowsOf: map<(PartKey, Eye), seq<nat>>, admitted: map<Eye, seq<bool>>)

  ghost predicate ValidParts(parts: Parts, rows: seq<Row>) {
    (forall e: Eye :: e in parts.admitted && |parts.admitted[e]| == |parts.keys|) &&
    (forall p :: p in parts.rowsOf ==> forall i :: 0 <= i < |parts.rowsOf[p]| ==> parts.rowsOf[p][i] < |rows|)
  }

  function RowsOf(parts: Parts, j: nat, e: Eye): seq<nat>
    requires j < |parts.keys|
  {
    if (parts.keys[j], e) in parts.rowsOf then parts.rowsOf[(parts.keys[j], e)] else []
  }

  ghost predicate PartKept(k: real, form: Form, parts: Parts, rows: seq<Row>, reading: Reading, e: Eye, j: nat)
    requires ValidParts(parts, rows) && j < |parts.keys|
  {
    parts.admitted[e][j] &&
    exists n :: 0 <= n < |RowsOf(parts, j, e)| && RowKept(k, form, rows[RowsOf(parts, j, e)[n]], reading)
  }

  /** flags says, part by part, which parts of the eye are kept under the reading. */
  ghost predicate KeptFlags(k: real, form: Form, parts: Parts, rows: seq<Row>, reading: Reading, e: Eye,
      flags: seq<bool>)
    requires ValidParts(parts, rows)
  {
    |flags| == |parts.keys| &&
    forall j :: 0 <= j < |flags| ==> (flags[j] <==> PartKept(k, form, parts, rows, reading, e, j))
  }

  /** flags of both eyes under one reading. */
  ghost predicate KeptMap(k: real, form: Form, parts: Parts, rows: seq<Row>, reading: Reading,
      kept: map<Eye, seq<bool>>)
    requires ValidParts(parts, rows)
  {
    forall e: Eye :: e in kept && KeptFlags(k, form, parts, rows, reading, e, kept[e])
  }

  /** One row under the bias: whether it passes for certain, and possibly. */
  method RowVerdict(k: real, form: Form, r: Row, br: Brackets) returns (sure: bool, maybe: bool)
    ensures sure <==> RowKept(k, form, r, Sure(br))
    ensures maybe <==> RowKept(k, form, r, Maybe(br))
  {
    if !r.passed {
      return false, false;
    }
    var size := true;
    if form in [Size, Scale] {
      size := SIZE_FACTOR * (k * r.A * r.d + r.B) <= r.R;
    }
    if form == Size {
      return size, size;
    }
    var m, fk := r.model, Scaled(k, r.f);
    var exact := if r.tab.Some? then TablePick(r.tab.value, fk) else None;
    if exact.Some? {
      return size && exact.value.0, size && exact.value.0;
    }
    return size && m in br.lo && fk <= br.lo[m], size && (m in br.hi ==> fk < br.hi[m]);
  }

  /** One part in one eye: its rows in order, each bound growing as rows pass it. */
  method PartVerdict(k: real, form: Form, mine: seq<nat>, rows: seq<Row>, br: Brackets)
      returns (sure: bool, maybe: bool)
    requires forall n :: 0 <= n < |mine| ==> mine[n] < |rows|
    ensures sure <==> exists n :: 0 <= n < |mine| && RowKept(k, form, rows[mine[n]], Sure(br))
    ensures maybe <==> exists n :: 0 <= n < |mine| && RowKept(k, form, rows[mine[n]], Maybe(br))
  {
    sure, maybe := false, false;
    for n := 0 to |mine|
      invariant sure <==> exists x :: 0 <= x < n && RowKept(k, form, rows[mine[x]], Sure(br))
      invariant maybe <==> exists x :: 0 <= x < n && RowKept(k, form, rows[mine[x]], Maybe(br))
    {
      var s, m := RowVerdict(k, form, rows[mine[n]], br);
      sure, maybe := sure || s, maybe || m;
    }
  }

  /** The two verdict arrays of one eye, filled part by part. */
  method EyeVerdicts(k: real, form: Form, parts: Parts, rows: seq<Row>, br: Brackets, e: Eye)
      returns (sure: array<bool>, maybe: array<bool>)
    requires ValidParts(parts, rows)
    ensures KeptFlags(k, form, parts, rows, Sure(br), e, sure[..])
    ensures KeptFlags(k, form, parts, rows, Maybe(br), e, maybe[..])
  {
    hide RowKept, TablePick;
    sure, maybe := new bool[|parts.keys|](_ => false), new bool[|parts.keys|](_ => false);
    for j := 0 to |parts.keys|
      invariant forall x :: 0 <= x < j ==> (sure[x] <==> PartKept(k, form, parts, rows, Sure(br), e, x))
      invariant forall x :: 0 <= x < j ==> (maybe[x] <==> PartKept(k, form, parts, rows, Maybe(br), e, x))
      invariant forall x :: j <= x < |parts.keys| ==> !sure[x] && !maybe[x]
    {
      if parts.admitted[e][j] {
        sure[j], maybe[j] := PartVerdict(k, form, RowsOf(parts, j, e), rows, br);
      }
    }
  }

  /** Per eye and part: kept for certain, kept possibly. */
  method LodBiasVerdicts(k: real, form: Form, parts: Parts, rows: seq<Row>, br: Brackets)
      returns (sure: map<Eye, seq<bool>>, maybe: map<Eye, seq<bool>>)
    requires ValidParts(parts, rows)
    ensures KeptMap(k, form, parts, rows, Sure(br), sure)
    ensures KeptMap(k, form, parts, rows, Maybe(br), maybe)
  {
    var sureA, maybeA := EyeVerdicts(k, form, parts, rows, br, EyeA);
    var sureB, maybeB := EyeVerdicts(k, form, parts, rows, br, EyeB);
    sure := map[EyeA := sureA[..], EyeB := sureB[..]];
    maybe := map[EyeA := maybeA[..], EyeB := maybeB[..]];
    forall e: Eye
      ensures e in sure && KeptFlags(k, form, parts, rows, Sure(br), e, sure[e])
      ensures e in maybe && KeptFlags(k, form, parts, rows, Maybe(br), e, maybe[e])
    {
      assert e.EyeA? || e.EyeB?;
    }
  }

  // ---------------------------------------------------------------- the instance-range join

  type Claims = map<nat, seq<nat>>

  type EyeDraw = (Eye, seq<nat>)

  /** A slot goes in an eye when some part claims it and no claiming part is kept there. */
  predicate SlotGone(kept: map<Eye, seq<bool>>, claims: Claims, e: Eye, slot: nat)
    requires e in kept && ClaimsIn(claims, |kept[e]|)
  {
    slot in claims && forall i :: 0 <= i < |claims[slot]| ==> !kept[e][claims[slot][i]]
  }

  ghost predicate ClaimsIn(claims: Claims, parts: nat) {
    forall slot :: slot in claims ==> forall i :: 0 <= i < |claims[slot]| ==> claims[slot][i] < parts
  }

  predicate DrawRemoved(kept: map<Eye, seq<bool>>, claims: Claims, draw: EyeDraw)
    requires draw.0 in kept && ClaimsIn(claims, |kept[draw.0]|)
  {
    draw.1 != [] && forall i :: 0 <= i < |draw.1| ==> SlotGone(kept, claims, draw.0, draw.1[i])
  }

  ghost predicate ValidKept(kept: map<Eye, seq<bool>>, claims: Claims) {
    forall e: Eye :: e in kept && ClaimsIn(claims, |kept[e]|)
  }

  /** Per draw: every slot of a nonempty instance range is gone. */
  function DrawsRemoved(kept: map<Eye, seq<bool>>, claims: Claims, draws: seq<EyeDraw>): seq<bool>
    requires ValidKept(kept, claims)
  {
    seq(|draws|, i requires 0 <= i < |draws| => DrawRemoved(kept, claims, draws[i]))
  }

  function CountTrue(flags: seq<bool>): nat {
    if flags == [] then 0 else CountTrue(flags[1..]) + if flags[0] then 1 else 0
  }

  lemma CountIsMonotone(a: seq<bool>, b: seq<bool>)
    requires |a| == |b| && forall i :: 0 <= i < |a| ==> a[i] ==> b[i]
    ensures CountTrue(a) <= CountTrue(b)
  {
    if a != [] {
      CountIsMonotone(a[1..], b[1..]);
    }
  }

  ghost predicate KeptWithin(a: map<Eye, seq<bool>>, b: map<Eye, seq<bool>>) {
    forall e: Eye :: e in a && e in b && |a[e]| == |b[e]| && forall j :: 0 <= j < |a[e]| ==> a[e][j] ==> b[e][j]
  }

  /** Keeping more parts removes fewer draws. */
  lemma JoinIsAntitone(less: map<Eye, seq<bool>>, more: map<Eye, seq<bool>>, claims: Claims, draws: seq<EyeDraw>)
    requires ValidKept(less, claims) && ValidKept(more, claims) && KeptWithin(less, more)
    ensures forall i :: 0 <= i < |draws| && DrawsRemoved(more, claims, draws)[i] ==>
      DrawsRemoved(less, claims, draws)[i]
    ensures CountTrue(DrawsRemoved(more, claims, draws)) <= CountTrue(DrawsRemoved(less, claims, draws))
  {
    forall i | 0 <= i < |draws| && DrawsRemoved(more, claims, draws)[i]
      ensures DrawsRemoved(less, claims, draws)[i]
    {
      var (e, slots) := draws[i];
      forall n | 0 <= n < |slots|
        ensures SlotGone(less, claims, e, slots[n])
      {
        assert SlotGone(more, claims, e, slots[n]);
      }
    }
    CountIsMonotone(DrawsRemoved(more, claims, draws), DrawsRemoved(less, claims, draws));
  }

  /** Some place of the draw's range keeps it: a slot nobody claims, or one with a claimant that is kept. */
  ghost predicate Holds(kept: map<Eye, seq<bool>>, claims: Claims, draw: EyeDraw)
    requires ValidKept(kept, claims)
  {
    exists slot :: slot in draw.1 && (slot in claims ==> exists j :: j in claims[slot] && kept[draw.0][j])
  }

  /** A draw is removed exactly when it has slots and none holds it. */
  lemma {:induction false} RemovedIff(kept: map<Eye, seq<bool>>, claims: Claims, draw: EyeDraw)
    requires ValidKept(kept, claims)
    ensures DrawRemoved(kept, claims, draw) <==> draw.1 != [] && !Holds(kept, claims, draw)
  {
    var (e, slots) := draw;
    if DrawRemoved(kept, claims, draw) {
      forall slot | slot in slots
        ensures slot in claims && forall j :: j in claims[slot] ==> !kept[e][j]
      {
        var n: nat :| n < |slots| && slots[n] == slot;
        assert SlotGone(kept, claims, e, slots[n]);
      }
    }
    if slots != [] && !Holds(kept, claims, draw) {
      forall n | 0 <= n < |slots|
        ensures SlotGone(kept, claims, e, slots[n])
      {
        assert slots[n] in slots;
        assert forall i :: 0 <= i < |claims[slots[n]]| ==> claims[slots[n]][i] in claims[slots[n]];
      }
    }
  }

  /** A range of two parts goes exactly when both do. */
  lemma {:induction false} RangeSplits(kept: map<Eye, seq<bool>>, claims: Claims, e: Eye, a: seq<nat>, b: seq<nat>)
    requires ValidKept(kept, claims) && a != [] && b != []
    ensures DrawRemoved(kept, claims, (e, a + b)) <==>
      DrawRemoved(kept, claims, (e, a)) && DrawRemoved(kept, claims, (e, b))
  {
    RemovedIff(kept, claims, (e, a + b));
    RemovedIff(kept, claims, (e, a));
    RemovedIff(kept, claims, (e, b));
    assert forall slot :: slot in a + b <==> slot in a || slot in b;
  }

  lemma {:induction false} CountIsNumber(flags: seq<bool>)
    ensures CountTrue(flags) == |set i: nat | i < |flags| && flags[i]|
  {
    if flags != [] {
      var rest := flags[1..];
      CountIsNumber(rest);
      var now, later := set i: nat | i < |flags| && flags[i], set i: nat | i < |rest| && rest[i];
      Shifted(later, now, flags[0]);
    }
  }

  /** A set moved up by one, with or without zero. */
  lemma {:induction false} Shifted(a: set<nat>, b: set<nat>, zero: bool)
    requires forall i: nat :: i + 1 in b <==> i in a
    requires 0 in b <==> zero
    ensures |b| == |a| + if zero then 1 else 0
  {
    var rest := b - {0};
    MovedUp(a, rest);
    if zero {
      assert b == rest + {0};
    } else {
      assert b == rest;
    }
  }

  lemma {:induction false} MovedUp(a: set<nat>, b: set<nat>)
    requires forall i: nat :: i + 1 in b <==> i in a
    requires 0 !in b
    ensures |a| == |b|
    decreases a
  {
    forall y | y in b
      ensures y > 0 && y - 1 in a
    {
      assert y == (y - 1) + 1;
    }
    if x :| x in a {
      assert x + 1 in b;
      MovedUp(a - {x}, b - {x + 1});
    } else {
      assert b == {};
    }
  }

  // ---------------------------------------------------------------- the interval as the tool's own test has it

  /** A row kept for certain is kept, and a kept row kept possibly, whatever t0 explains the rows. */
  lemma RowSandwich(k: real, form: Form, rows: seq<Row>, i: nat, br: Brackets, t0: nat -> real)
    requires i < |rows| && BracketsOf(rows, br) && Explains(rows, t0)
    ensures RowKept(k, form, rows[i], Sure(br)) ==> RowKept(k, form, rows[i], Filled(t0))
    ensures RowKept(k, form, rows[i], Filled(t0)) ==> RowKept(k, form, rows[i], Maybe(br))
    ensures Tabled(rows[i]) ==> (RowKept(k, form, rows[i], Sure(br)) <==> RowKept(k, form, rows[i], Maybe(br)))
  {
    var m := rows[i].model;
    if m in br.lo {
      var a :| 0 <= a < |rows| && PassRow(rows[a]) && rows[a].model == m && rows[a].f == br.lo[m];
      assert br.lo[m] <= t0(m);
    }
    if m in br.hi {
      var b :| 0 <= b < |rows| && RejectRow(rows[b]) && rows[b].model == m && rows[b].f == br.hi[m];
      assert t0(m) < br.hi[m];
    }
  }

  /** Reading every row under `to` keeps at least the parts kept under `from`. */
  lemma ReadingsNest(k: real, form: Form, parts: Parts, rows: seq<Row>, from: Reading, to: Reading,
      less: map<Eye, seq<bool>>, more: map<Eye, seq<bool>>)
    requires ValidParts(parts, rows)
    requires KeptMap(k, form, parts, rows, from, less) && KeptMap(k, form, parts, rows, to, more)
    requires forall i :: 0 <= i < |rows| ==> RowKept(k, form, rows[i], from) ==> RowKept(k, form, rows[i], to)
    ensures KeptWithin(less, more)
  {
    forall e: Eye, j | 0 <= j < |parts.keys| && less[e][j]
      ensures more[e][j]
    {
      assert PartKept(k, form, parts, rows, from, e, j);
      var mine := RowsOf(parts, j, e);
      var n :| 0 <= n < |mine| && RowKept(k, form, rows[mine[n]], from);
      assert RowKept(k, form, rows[mine[n]], to);
      assert PartKept(k, form, parts, rows, to, e, j);
    }
  }

  /**
   What the tool's own test removes with any t0 that explains the rows filled in lies between the reported ends, draw by
   draw and in number, for every form and bias.
   */
  lemma IntervalSpansItsTest(k: real, form: Form, parts: Parts, rows: seq<Row>, br: Brackets, t0: nat -> real,
      claims: Claims, draws: seq<EyeDraw>, sure: map<Eye, seq<bool>>, kept: map<Eye, seq<bool>>,
      maybe: map<Eye, seq<bool>>)
    requires ValidParts(parts, rows) && ClaimsIn(claims, |parts.keys|)
    requires BracketsOf(rows, br) && Explains(rows, t0)
    requires KeptMap(k, form, parts, rows, Sure(br), sure) && KeptMap(k, form, parts, rows, Maybe(br), maybe)
    requires KeptMap(k, form, parts, rows, Filled(t0), kept)
    ensures KeptWithin(sure, kept) && KeptWithin(kept, maybe)
    ensures forall i :: 0 <= i < |draws| && DrawsRemoved(maybe, claims, draws)[i] ==>
      DrawsRemoved(kept, claims, draws)[i]
    ensures forall i :: 0 <= i < |draws| && DrawsRemoved(kept, claims, draws)[i] ==>
      DrawsRemoved(sure, claims, draws)[i]
    ensures CountTrue(DrawsRemoved(maybe, claims, draws)) <= CountTrue(DrawsRemoved(kept, claims, draws))
      <= CountTrue(DrawsRemoved(sure, claims, draws))
    ensures (form.Size? || forall i :: 0 <= i < |rows| ==> Tabled(rows[i])) ==>
      DrawsRemoved(maybe, claims, draws) == DrawsRemoved(kept, claims, draws) == DrawsRemoved(sure, claims, draws)
  {
    forall i | 0 <= i < |rows|
      ensures RowKept(k, form, rows[i], Sure(br)) ==> RowKept(k, form, rows[i], Filled(t0))
      ensures RowKept(k, form, rows[i], Filled(t0)) ==> RowKept(k, form, rows[i], Maybe(br))
      ensures Tabled(rows[i]) ==> (RowKept(k, form, rows[i], Sure(br)) <==> RowKept(k, form, rows[i], Maybe(br)))
    {
      RowSandwich(k, form, rows, i, br, t0);
    }
    ReadingsNest(k, form, parts, rows, Sure(br), Filled(t0), sure, kept);
    ReadingsNest(k, form, parts, rows, Filled(t0), Maybe(br), kept, maybe);
    JoinIsAntitone(sure, kept, claims, draws);
    JoinIsAntitone(kept, maybe, claims, draws);
    if form.Size? || forall i :: 0 <= i < |rows| ==> Tabled(rows[i]) {
      ReadingsNest(k, form, parts, rows, Maybe(br), Sure(br), maybe, sure);
      JoinIsAntitone(maybe, sure, claims, draws);
    }
  }

  /** A bias never brings back a draw: what the engine's own verdicts remove, every bias removes. */
  lemma BiasOnlyRemoves(k: real, form: Form, parts: Parts, rows: seq<Row>, reading: Reading, claims: Claims,
      draws: seq<EyeDraw>, kept: map<Eye, seq<bool>>)
    requires ValidParts(parts, rows) && ClaimsIn(claims, |parts.keys|)
    requires KeptMap(k, form, parts, rows, reading, kept)
    ensures forall i :: 0 <= i < |draws| && DrawsRemoved(parts.admitted, claims, draws)[i] ==>
      DrawsRemoved(kept, claims, draws)[i]
  {
    forall e: Eye, j | 0 <= j < |parts.keys| && kept[e][j]
      ensures parts.admitted[e][j]
    {
      assert PartKept(k, form, parts, rows, reading, e, j);
    }
    JoinIsAntitone(kept, parts.admitted, claims, draws);
  }

  // ---------------------------------------------------------------- the interval cannot be narrowed

  /** Every distance the rows and the biased test compare with a t0. */
  function Distances(rows: seq<Row>, k: real): seq<real> {
    if rows == [] then [] else [rows[0].f, Scaled(k, rows[0].f)] + Distances(rows[1..], k)
  }

  lemma DistancesHold(rows: seq<Row>, k: real, i: nat)
    requires i < |rows|
    ensures rows[i].f in Distances(rows, k) && Scaled(k, rows[i].f) in Distances(rows, k)
  {
    assert Distances(rows, k)[0] == rows[0].f && Distances(rows, k)[1] == Scaled(k, rows[0].f);
    if i > 0 {
      DistancesHold(rows[1..], k, i - 1);
      assert rows[1..][i - 1] == rows[i];
      assert Distances(rows, k) == [rows[0].f, Scaled(k, rows[0].f)] + Distances(rows[1..], k);
    }
  }

  function Below(values: seq<real>): (b: real)
    ensures forall v :: v in values ==> b < v
  {
    if values == [] then 0.0
    else
      assert values == [values[0]] + values[1..];
      var b := Below(values[1..]);
      if b < values[0] then b else values[0] - 1.0
  }

  function Above(values: seq<real>): (b: real)
    ensures forall v :: v in values ==> v < b
  {
    if values == [] then 0.0
    else
      assert values == [values[0]] + values[1..];
      var b := Above(values[1..]);
      if values[0] < b then b else values[0] + 1.0
  }

  /** Splits the values exactly where `limit` does, from strictly below it. */
  function JustUnder(values: seq<real>, limit: real): (b: real)
    ensures b < limit
    ensures forall v :: v in values ==> (v <= b <==> v < limit)
  {
    if values == [] then limit - 1.0
    else
      assert values == [values[0]] + values[1..];
      var b := JustUnder(values[1..], limit);
      if b < values[0] < limit then values[0] else b
  }

  /** The smallest t0 of each model the rows allow, as far as any comparison can tell. */
  function LeastT0(rows: seq<Row>, br: Brackets, k: real): nat -> real {
    (m: nat) => if m in br.lo then br.lo[m] else Below(Distances(rows, k))
  }

  /** The largest. */
  function GreatestT0(rows: seq<Row>, br: Brackets, k: real): nat -> real {
    (m: nat) => if m in br.hi then JustUnder(Distances(rows, k), br.hi[m]) else Above(Distances(rows, k))
  }

  lemma ExplainedFromBelow(rows: seq<Row>, br: Brackets, k: real)
    requires BracketsOf(rows, br) && Conflicts(br) == {}
    ensures Explains(rows, LeastT0(rows, br, k))
  {
    var t0 := LeastT0(rows, br, k);
    forall i | 0 <= i < |rows|
      ensures PassRow(rows[i]) ==> rows[i].f <= t0(rows[i].model)
      ensures RejectRow(rows[i]) ==> t0(rows[i].model) < rows[i].f
    {
      DistancesHold(rows, k, i);
      assert rows[i].model !in Conflicts(br);
    }
  }

  lemma ExplainedFromAbove(rows: seq<Row>, br: Brackets, k: real)
    requires BracketsOf(rows, br) && Conflicts(br) == {}
    ensures Explains(rows, GreatestT0(rows, br, k))
  {
    var t0 := GreatestT0(rows, br, k);
    forall i | 0 <= i < |rows|
      ensures PassRow(rows[i]) ==> rows[i].f <= t0(rows[i].model)
      ensures RejectRow(rows[i]) ==> t0(rows[i].model) < rows[i].f
    {
      DistancesHold(rows, k, i);
      assert rows[i].model !in Conflicts(br);
    }
  }

  lemma EndsAreReached(k: real, form: Form, rows: seq<Row>, i: nat, br: Brackets)
    requires i < |rows|
    ensures RowKept(k, form, rows[i], Sure(br)) <==> RowKept(k, form, rows[i], Filled(LeastT0(rows, br, k)))
    ensures RowKept(k, form, rows[i], Maybe(br)) <==> RowKept(k, form, rows[i], Filled(GreatestT0(rows, br, k)))
  {
    DistancesHold(rows, k, i);
  }

  /**
   Both ends are reached: one t0 that explains every row keeps exactly the parts kept for certain, another exactly those
   kept possibly. No narrower interval would span the test.
   */
  lemma IntervalIsTight(k: real, form: Form, parts: Parts, rows: seq<Row>, br: Brackets, sure: map<Eye, seq<bool>>,
      maybe: map<Eye, seq<bool>>)
    requires ValidParts(parts, rows) && BracketsOf(rows, br) && Conflicts(br) == {}
    requires KeptMap(k, form, parts, rows, Sure(br), sure) && KeptMap(k, form, parts, rows, Maybe(br), maybe)
    ensures exists t0 :: Explains(rows, t0) && KeptMap(k, form, parts, rows, Filled(t0), sure)
    ensures exists t0 :: Explains(rows, t0) && KeptMap(k, form, parts, rows, Filled(t0), maybe)
  {
    ExplainedFromBelow(rows, br, k);
    ExplainedFromAbove(rows, br, k);
    var least, greatest := LeastT0(rows, br, k), GreatestT0(rows, br, k);
    forall i | 0 <= i < |rows|
      ensures RowKept(k, form, rows[i], Sure(br)) <==> RowKept(k, form, rows[i], Filled(least))
      ensures RowKept(k, form, rows[i], Maybe(br)) <==> RowKept(k, form, rows[i], Filled(greatest))
    {
      EndsAreReached(k, form, rows, i, br);
    }
    assert Explains(rows, least) && Explains(rows, greatest);
    SameRowsSameFlags(k, form, parts, rows, Sure(br), Filled(least), sure);
    SameRowsSameFlags(k, form, parts, rows, Maybe(br), Filled(greatest), maybe);
  }

  lemma SameRowsSameFlags(k: real, form: Form, parts: Parts, rows: seq<Row>, a: Reading, b: Reading,
      kept: map<Eye, seq<bool>>)
    requires ValidParts(parts, rows) && KeptMap(k, form, parts, rows, a, kept)
    requires forall i :: 0 <= i < |rows| ==> (RowKept(k, form, rows[i], a) <==> RowKept(k, form, rows[i], b))
    ensures KeptMap(k, form, parts, rows, b, kept)
  {
    forall e: Eye, j | 0 <= j < |parts.keys|
      ensures kept[e][j] <==> PartKept(k, form, parts, rows, b, e, j)
    {
      var mine := RowsOf(parts, j, e);
      assert kept[e][j] <==> PartKept(k, form, parts, rows, a, e, j);
      assert forall n :: 0 <= n < |mine| ==>
        (RowKept(k, form, rows[mine[n]], a) <==> RowKept(k, form, rows[mine[n]], b));
    }
  }

  // ---------------------------------------------------------------- the whole estimate

  ghost function FlagsUnder(k: real, form: Form, parts: Parts, rows: seq<Row>, reading: Reading, e: Eye): seq<bool>
    requires ValidParts(parts, rows)
  {
    seq(|parts.keys|, j requires 0 <= j < |parts.keys| => PartKept(k, form, parts, rows, reading, e, j))
  }

  /** The parts kept under a reading. */
  ghost function KeptUnder(k: real, form: Form, parts: Parts, rows: seq<Row>,
      reading: Reading): (kept: map<Eye, seq<bool>>)
    requires ValidParts(parts, rows)
    ensures KeptMap(k, form, parts, rows, reading, kept)
  {
    map e: Eye :: FlagsUnder(k, form, parts, rows, reading, e)
  }

  ghost function RemovedUnder(k: real, form: Form, parts: Parts, rows: seq<Row>, claims: Claims, draws: seq<EyeDraw>,
      reading: Reading): nat
    requires ValidParts(parts, rows) && ClaimsIn(claims, |parts.keys|)
  {
    CountTrue(DrawsRemoved(KeptUnder(k, form, parts, rows, reading), claims, draws))
  }

  /** The draws that have slots, all of them claimed, and by no part that is kept in the eye under the reading. */
  ghost function GoneDraws(k: real, form: Form, parts: Parts, rows: seq<Row>, claims: Claims, draws: seq<EyeDraw>,
      reading: Reading): set<nat>
    requires ValidParts(parts, rows)
  {
    set i: nat | i < |draws| && Goes(k, form, parts, rows, claims, draws[i], reading)
  }

  ghost predicate Goes(k: real, form: Form, parts: Parts, rows: seq<Row>, claims: Claims, draw: EyeDraw,
      reading: Reading)
    requires ValidParts(parts, rows)
  {
    draw.1 != [] &&
    forall slot :: slot in draw.1 ==>
      slot in claims && forall j: nat :: j in claims[slot] && j < |parts.keys| ==>
        !PartKept(k, form, parts, rows, reading, draw.0, j)
  }

  /** What is counted is those draws. */
  lemma {:induction false} RemovedIsNumber(k: real, form: Form, parts: Parts, rows: seq<Row>, claims: Claims,
      draws: seq<EyeDraw>, reading: Reading)
    requires ValidParts(parts, rows) && ClaimsIn(claims, |parts.keys|)
    ensures RemovedUnder(k, form, parts, rows, claims, draws, reading) ==
      |GoneDraws(k, form, parts, rows, claims, draws, reading)|
  {
    hide PartKept, RowKept, Goes, Holds;
    var kept := KeptUnder(k, form, parts, rows, reading);
    var flags := DrawsRemoved(kept, claims, draws);
    forall i: nat | i < |draws|
      ensures flags[i] <==> Goes(k, form, parts, rows, claims, draws[i], reading)
    {
      RemovedIff(kept, claims, draws[i]);
      HoldsIff(k, form, parts, rows, claims, draws[i], reading);
    }
    CountIsNumber(flags);
    assert GoneDraws(k, form, parts, rows, claims, draws, reading) == set i: nat | i < |flags| && flags[i];
  }

  lemma {:induction false} HoldsIff(k: real, form: Form, parts: Parts, rows: seq<Row>, claims: Claims, draw: EyeDraw,
      reading: Reading)
    requires ValidParts(parts, rows) && ClaimsIn(claims, |parts.keys|)
    ensures Goes(k, form, parts, rows, claims, draw, reading) <==>
      draw.1 != [] && !Holds(KeptUnder(k, form, parts, rows, reading), claims, draw)
  {
    hide PartKept;
    var kept := KeptUnder(k, form, parts, rows, reading);
    assert forall slot, j :: slot in claims && j in claims[slot] ==>
      j < |parts.keys| && (kept[draw.0][j] <==> PartKept(k, form, parts, rows, reading, draw.0, j));
  }

  lemma SameFlagsAreEqual(k: real, form: Form, parts: Parts, rows: seq<Row>, reading: Reading,
      kept: map<Eye, seq<bool>>, claims: Claims, draws: seq<EyeDraw>)
    requires ValidParts(parts, rows) && ClaimsIn(claims, |parts.keys|) && KeptMap(k, form, parts, rows, reading, kept)
    ensures CountTrue(DrawsRemoved(kept, claims, draws)) == RemovedUnder(k, form, parts, rows, claims, draws, reading)
  {
    var under := KeptUnder(k, form, parts, rows, reading);
    JoinIsAntitone(kept, under, claims, draws);
    JoinIsAntitone(under, kept, claims, draws);
  }

  /** The lower and upper number of draws the tool prints for one bias and form, and what its own test makes of them. */
  method RemovedInterval(k: real, form: Form, parts: Parts, rows: seq<Row>, claims: Claims, draws: seq<EyeDraw>)
      returns (lower: nat, upper: nat, br: Brackets)
    requires ValidParts(parts, rows) && ClaimsIn(claims, |parts.keys|)
    ensures BracketsOf(rows, br)
    ensures lower == RemovedUnder(k, form, parts, rows, claims, draws, Maybe(br))
    ensures upper == RemovedUnder(k, form, parts, rows, claims, draws, Sure(br))
    ensures lower == |GoneDraws(k, form, parts, rows, claims, draws, Maybe(br))|
    ensures upper == |GoneDraws(k, form, parts, rows, claims, draws, Sure(br))|
    ensures forall t0 :: Explains(rows, t0) ==>
      lower <= RemovedUnder(k, form, parts, rows, claims, draws, Filled(t0)) <= upper
    ensures (exists t0 :: Explains(rows, t0)) ==>
      (exists t0 :: Explains(rows, t0) && RemovedUnder(k, form, parts, rows, claims, draws, Filled(t0)) == lower) &&
      (exists t0 :: Explains(rows, t0) && RemovedUnder(k, form, parts, rows, claims, draws, Filled(t0)) == upper)
  {
    var b, _, _, _ := T0Brackets(rows);
    br := b;
    var sure, maybe := LodBiasVerdicts(k, form, parts, rows, br);
    lower := CountTrue(DrawsRemoved(maybe, claims, draws));
    upper := CountTrue(DrawsRemoved(sure, claims, draws));
    SameFlagsAreEqual(k, form, parts, rows, Sure(br), sure, claims, draws);
    SameFlagsAreEqual(k, form, parts, rows, Maybe(br), maybe, claims, draws);
    RemovedIsNumber(k, form, parts, rows, claims, draws, Maybe(br));
    RemovedIsNumber(k, form, parts, rows, claims, draws, Sure(br));
    IntervalCoversAndIsReached(k, form, parts, rows, br, claims, draws);
  }

  lemma IntervalCoversAndIsReached(k: real, form: Form, parts: Parts, rows: seq<Row>, br: Brackets, claims: Claims,
      draws: seq<EyeDraw>)
    requires ValidParts(parts, rows) && ClaimsIn(claims, |parts.keys|) && BracketsOf(rows, br)
    ensures var lower := RemovedUnder(k, form, parts, rows, claims, draws, Maybe(br));
      var upper := RemovedUnder(k, form, parts, rows, claims, draws, Sure(br));
      (forall t0 :: Explains(rows, t0) ==>
        lower <= RemovedUnder(k, form, parts, rows, claims, draws, Filled(t0)) <= upper) &&
      ((exists t0 :: Explains(rows, t0)) ==>
        (exists t0 :: Explains(rows, t0) && RemovedUnder(k, form, parts, rows, claims, draws, Filled(t0)) == lower) &&
        (exists t0 :: Explains(rows, t0) && RemovedUnder(k, form, parts, rows, claims, draws, Filled(t0)) == upper))
  {
    var sure, maybe := KeptUnder(k, form, parts, rows, Sure(br)), KeptUnder(k, form, parts, rows, Maybe(br));
    forall t0 | Explains(rows, t0)
      ensures RemovedUnder(k, form, parts, rows, claims, draws, Maybe(br)) <=
        RemovedUnder(k, form, parts, rows, claims, draws, Filled(t0)) <=
        RemovedUnder(k, form, parts, rows, claims, draws, Sure(br))
    {
      var kept := KeptUnder(k, form, parts, rows, Filled(t0));
      IntervalSpansItsTest(k, form, parts, rows, br, t0, claims, draws, sure, kept, maybe);
    }
    if exists t0 :: Explains(rows, t0) {
      NoConflictIffExplained(rows, br);
      IntervalIsTight(k, form, parts, rows, br, sure, maybe);
      var low :| Explains(rows, low) && KeptMap(k, form, parts, rows, Filled(low), sure);
      var high :| Explains(rows, high) && KeptMap(k, form, parts, rows, Filled(high), maybe);
      SameFlagsAreEqual(k, form, parts, rows, Filled(low), sure, claims, draws);
      SameFlagsAreEqual(k, form, parts, rows, Filled(high), maybe, claims, draws);
    }
  }

  // ---------------------------------------------------------------- what k * f stands for

  /** The LOD distance of a row: A scales the view, s the context, B is the orthographic constant. */
  function LodDistance(A: real, d: real, R: real, s: real, B: real): real {
    A * (d - R) * s + B
  }

  /** k * f is the LOD distance under the scaled view (A to k * A) only without a bias or an orthographic constant. */
  lemma ScaledDistanceIsExactIff(k: real, A: real, d: real, R: real, s: real, B: real)
    ensures k * LodDistance(A, d, R, s, B) == LodDistance(k * A, d, R, s, B) <==> k == 1.0 || B == 0.0
  {
    var y := d - R;
    var x := A * y * s;
    Associative(k, A, y);
    Associative(k, A * y, s);
    assert k * (x + B) == k * x + k * B;
    assert k * B - B == (k - 1.0) * B;
    ZeroProduct(k - 1.0, B);
  }

  /** Nor is it the LOD distance under the scaled context (s to k * s), but then. */
  lemma ContextDistanceIsExactIff(k: real, A: real, d: real, R: real, s: real, B: real)
    ensures k * LodDistance(A, d, R, s, B) == LodDistance(A, d, R, k * s, B) <==> k == 1.0 || B == 0.0
  {
    var y := A * (d - R);
    var x := y * s;
    assert y * (k * s) == k * x by {
      Associative(y, k, s);
      Associative(k, y, s);
    }
    assert k * (x + B) == k * x + k * B;
    assert k * B - B == (k - 1.0) * B;
    ZeroProduct(k - 1.0, B);
  }

  lemma Associative(a: real, b: real, c: real)
    ensures (a * b) * c == a * (b * c)
  {
  }

  lemma ZeroProduct(a: real, b: real)
    ensures a * b == 0.0 <==> a == 0.0 || b == 0.0
  {
  }
}
