/**
 The per-part admission of tools/cull_gate_probe.py: part rows gathered into a verdict for each part and eye, and the
 tally of those verdicts against the slots each eye drew.
 */
module PartVerdicts {
  import opened Prelude
  import opened LodBias
  import G = GateCodec

  // ---------------------------------------------------------------- the rows of a frame

  /** A part's verdict in a view: whether any row passed, and the level of the last that did. */
  datatype Seen = Seen(passed: bool, lod: Option<nat>)

  /** The flags of a row without a verified identity, from another caller, or with another owner. */
  predicate Excluded(p: G.Part) { p.builder == G.NO_ROW || p.flags / 2 % 8 != 0 }

  /** The row counts for the frame. */
  predicate Counts(p: G.Part, frame: nat) { p.frame == frame && !Excluded(p) }

  /** Engine record, entry and sub-item of a row that counts. */
  function KeyOf(builders: seq<G.Builder>, p: G.Part): PartKey
    requires G.PartInRange(p, |builders|) && !Excluded(p)
  {
    (builders[p.builder].record, p.entry, p.sub)
  }

  ghost predicate Linked(builders: seq<G.Builder>, rows: seq<G.Part>) {
    forall i: nat :: i < |rows| ==> G.PartInRange(rows[i], |builders|)
  }

  /** Row i tests the part in the view. */
  predicate Tests(builders: seq<G.Builder>, rows: seq<G.Part>, frame: nat, key: PartKey, view: nat, i: nat)
    requires i < |rows| && G.PartInRange(rows[i], |builders|)
  {
    Counts(rows[i], frame) && KeyOf(builders, rows[i]) == key && rows[i].view == view
  }

  /** Row i does so in plain numbers: its flags 2, 4 and 8 are clear. */
  lemma TestsIff(builders: seq<G.Builder>, rows: seq<G.Part>, frame: nat, key: PartKey, view: nat, i: nat)
    requires i < |rows| && G.PartInRange(rows[i], |builders|)
    ensures Tests(builders, rows, frame, key, view, i) <==>
      rows[i].frame == frame && rows[i].builder != 0xFFFF_FFFF && rows[i].view == view &&
      rows[i].flags / 2 % 2 == 0 && rows[i].flags / 4 % 2 == 0 && rows[i].flags / 8 % 2 == 0 &&
      key.0 == builders[rows[i].builder].record && key.1 == rows[i].entry && key.2 == rows[i].sub
  {
    MiddleBits(rows[i].flags);
  }

  lemma MiddleBits(x: nat)
    ensures x / 2 % 8 != 0 <==> x / 2 % 2 == 1 || x / 4 % 2 == 1 || x / 8 % 2 == 1
  {
    Quarters(x);
    var h := x / 2;
    ThreeBits(h / 8, h % 8);
    assert h == 8 * (h / 8) + h % 8;
  }

  lemma Quarters(x: nat)
    ensures x / 4 == x / 2 / 2 && x / 8 == x / 2 / 4
  {
  }

  lemma ThreeBits(q: nat, r: nat)
    requires r < 8
    ensures (8 * q + r) % 2 == r % 2 && (8 * q + r) / 2 % 2 == r / 2 % 2 && (8 * q + r) / 4 % 2 == r / 4 % 2
    ensures r != 0 <==> r % 2 == 1 || r / 2 % 2 == 1 || r / 4 % 2 == 1
  {
    assert (8 * q + r) / 2 == 4 * q + r / 2;
    assert (8 * q + r) / 4 == 2 * q + r / 4;
  }

  ghost predicate Tested(builders: seq<G.Builder>, rows: seq<G.Part>, frame: nat, key: PartKey, view: nat)
    requires Linked(builders, rows)
  {
    exists i: nat :: i < |rows| && Tests(builders, rows, frame, key, view, i)
  }

  /** Some row of the part passed in the view. */
  ghost predicate Passed(builders: seq<G.Builder>, rows: seq<G.Part>, frame: nat, key: PartKey, view: nat)
    requires Linked(builders, rows)
  {
    exists i: nat :: i < |rows| && Tests(builders, rows, frame, key, view, i) && rows[i].passed != 0
  }

  /** Row i is the last by which the part passed in the view. */
  ghost predicate LastPass(builders: seq<G.Builder>, rows: seq<G.Part>, frame: nat, key: PartKey, view: nat, i: nat)
    requires Linked(builders, rows)
  {
    i < |rows| && Tests(builders, rows, frame, key, view, i) && rows[i].passed != 0 &&
    forall j: nat :: i < j < |rows| ==> !(Tests(builders, rows, frame, key, view, j) && rows[j].passed != 0)
  }

  type Views = map<PartKey, map<nat, Seen>>

  predicate Has(views: Views, key: PartKey, view: nat) { key in views && view in views[key] }

  /**
   The views say of every part and view whether a row tested it, whether one passed, and the level of the last that did.
   */
  ghost predicate ViewsOf(builders: seq<G.Builder>, rows: seq<G.Part>, frame: nat, views: Views)
    requires Linked(builders, rows)
  {
    (forall key, view: nat :: Has(views, key, view) <==> Tested(builders, rows, frame, key, view)) &&
    (forall key, view: nat :: Has(views, key, view) ==>
      (views[key][view].passed <==> Passed(builders, rows, frame, key, view))) &&
    LevelsOf(builders, rows, frame, views)
  }

  ghost predicate LevelsOf(builders: seq<G.Builder>, rows: seq<G.Part>, frame: nat, views: Views)
    requires Linked(builders, rows)
  {
    (forall key, view: nat, i: nat :: Has(views, key, view) && LastPass(builders, rows, frame, key, view, i) ==>
      views[key][view].lod == Some(rows[i].lod)) &&
    forall key, view: nat :: Has(views, key, view) && !views[key][view].passed ==> views[key][view].lod == None
  }

  /** How many of the first n rows are of the frame. */
  function OfFrame(rows: seq<G.Part>, frame: nat, n: nat): nat
    requires n <= |rows|
  {
    if n == 0 then 0 else OfFrame(rows, frame, n - 1) + if rows[n - 1].frame == frame then 1 else 0
  }

  function Counting(rows: seq<G.Part>, frame: nat, n: nat): nat
    requires n <= |rows|
  {
    if n == 0 then 0 else Counting(rows, frame, n - 1) + if Counts(rows[n - 1], frame) then 1 else 0
  }

  lemma {:induction false} TestsStep(builders: seq<G.Builder>, rows: seq<G.Part>, frame: nat, n: nat, key: PartKey,
      view: nat)
    requires n < |rows| && Linked(builders, rows)
    ensures Tested(builders, rows[..n + 1], frame, key, view) <==>
      Tested(builders, rows[..n], frame, key, view) || Tests(builders, rows, frame, key, view, n)
    ensures Passed(builders, rows[..n + 1], frame, key, view) <==>
      Passed(builders, rows[..n], frame, key, view) ||
      (Tests(builders, rows, frame, key, view, n) && rows[n].passed != 0)
  {
    hide Excluded;
    var before, after := rows[..n], rows[..n + 1];
    assert forall i: nat :: i < n ==>
      Tests(builders, before, frame, key, view, i) == Tests(builders, after, frame, key, view, i);
    assert Tests(builders, after, frame, key, view, n) == Tests(builders, rows, frame, key, view, n);
  }

  lemma {:induction false} ViewsStep(builders: seq<G.Builder>, rows: seq<G.Part>, frame: nat, n: nat, views: Views)
    requires n < |rows| && Linked(builders, rows) && ViewsOf(builders, rows[..n], frame, views)
    ensures !Counts(rows[n], frame) ==> ViewsOf(builders, rows[..n + 1], frame, views)
    ensures Counts(rows[n], frame) ==>
      ViewsOf(builders, rows[..n + 1], frame, Noted(views, KeyOf(builders, rows[n]), rows[n].view, rows[n].passed != 0,
          rows[n].lod))
  {
    hide Excluded, Tested, Passed;
    var r := rows[n];
    var now := if Counts(r, frame) then Noted(views, KeyOf(builders, r), r.view, r.passed != 0, r.lod) else views;
    PassedIsTested(builders, rows[..n], frame);
    forall key, view: nat
      ensures Has(now, key, view) <==> Tested(builders, rows[..n + 1], frame, key, view)
      ensures Has(now, key, view) ==> (now[key][view].passed <==> Passed(builders, rows[..n + 1], frame, key, view))
    {
      TestsStep(builders, rows, frame, n, key, view);
      assert Has(views, key, view) <==> Tested(builders, rows[..n], frame, key, view);
      if Counts(rows[n], frame) {
        NotedOne(views, KeyOf(builders, rows[n]), rows[n].view, rows[n].passed != 0, rows[n].lod, key, view);
      }
    }
    LevelsStep(builders, rows, frame, n, views, now);
  }

  lemma {:induction false} LevelsStep(builders: seq<G.Builder>, rows: seq<G.Part>, frame: nat, n: nat, views: Views,
      now: Views)
    requires n < |rows| && Linked(builders, rows) && ViewsOf(builders, rows[..n], frame, views)
    requires now == if !Counts(rows[n], frame) then views
      else Noted(views, KeyOf(builders, rows[n]), rows[n].view, rows[n].passed != 0, rows[n].lod)
    ensures LevelsOf(builders, rows[..n + 1], frame, now)
  {
    hide Excluded, Tested, Passed, Tests, KeyOf, Noted;
    var r, after := rows[n], rows[..n + 1];
    PassedIsTested(builders, rows[..n], frame);
    forall key, view: nat | Has(now, key, view) && Counts(r, frame)
      ensures !now[key][view].passed ==> now[key][view].lod == None
    {
      NotedOne(views, KeyOf(builders, r), r.view, r.passed != 0, r.lod, key, view);
    }
    forall key, view: nat, i: nat | Has(now, key, view) && LastPass(builders, after, frame, key, view, i)
      ensures now[key][view].lod == Some(after[i].lod)
    {
      if Counts(r, frame) {
        NotedOne(views, KeyOf(builders, r), r.view, r.passed != 0, r.lod, key, view);
      }
      LastPassStep(builders, rows, frame, n, key, view, i);
    }
  }

  /** The last pass so far is the row just read, or the last before it. */
  lemma {:induction false} LastPassStep(builders: seq<G.Builder>, rows: seq<G.Part>, frame: nat, n: nat, key: PartKey,
      view: nat, i: nat)
    requires n < |rows| && Linked(builders, rows) && LastPass(builders, rows[..n + 1], frame, key, view, i)
    ensures var here := Counts(rows[n], frame) && KeyOf(builders, rows[n]) == key && rows[n].view == view;
      i <= n && if here && rows[n].passed != 0 then i == n
      else i < n && LastPass(builders, rows[..n], frame, key, view, i) && Passed(builders, rows[..n], frame, key, view)
  {
    hide Excluded;
    var before, after := rows[..n], rows[..n + 1];
    assert Tests(builders, after, frame, key, view, n) == Tests(builders, rows, frame, key, view, n);
    assert forall j: nat :: j < n ==>
      Tests(builders, before, frame, key, view, j) == Tests(builders, after, frame, key, view, j);
  }

  lemma NotedOne(views: Views, key: PartKey, view: nat, passed: bool, lod: nat, k: PartKey, w: nat)
    ensures var now := Noted(views, key, view, passed, lod); var here := k == key && w == view;
      (Has(now, k, w) <==> Has(views, k, w) || here) &&
      (Has(now, k, w) ==> (now[k][w].passed <==> (Has(views, k, w) && views[k][w].passed) || (here && passed))) &&
      (Has(now, k, w) ==> now[k][w].lod == if here && passed then Some(lod)
                                           else if Has(views, k, w) then views[k][w].lod else None)
  {
  }

  lemma PassedIsTested(builders: seq<G.Builder>, rows: seq<G.Part>, frame: nat)
    requires Linked(builders, rows)
    ensures forall key, view: nat :: Passed(builders, rows, frame, key, view) ==>
      Tested(builders, rows, frame, key, view)
  {
  }

  /** The views with one more row. */
  function Noted(views: Views, key: PartKey, view: nat, passed: bool, lod: nat): Views {
    var v: map<nat, Seen> := if key in views then views[key] else map[];
    var was := if view in v then v[view] else Seen(false, None);
    views[key := v[view := if passed then Seen(true, Some(lod)) else was]]
  }

  /** part_views: the verdict of every part in every view it was tested in, and how many rows were left out. */
  method PartViews(builders: seq<G.Builder>, rows: seq<G.Part>, frame: nat) returns (views: Views, skipped: nat)
    requires Linked(builders, rows)
    ensures ViewsOf(builders, rows, frame, views)
    ensures skipped + Counting(rows, frame, |rows|) == OfFrame(rows, frame, |rows|)
  {
    views, skipped := map[], 0;
    hide Tested, Passed, Excluded;
    assert ViewsOf(builders, rows[..0], frame, views) by {
      NoneTested(builders, rows[..0], frame);
    }
    hide ViewsOf;
    for n := 0 to |rows|
      invariant ViewsOf(builders, rows[..n], frame, views) &&
        skipped + Counting(rows, frame, n) == OfFrame(rows, frame, n)
    {
      ViewsStep(builders, rows, frame, n, views);
      var p := rows[n];
      if p.frame == frame {
        if Excluded(p) {
          skipped := skipped + 1;
        } else {
          views := Noted(views, KeyOf(builders, p), p.view, p.passed != 0, p.lod);
        }
      }
    }
    assert rows[..|rows|] == rows;
  }

  lemma NoneTested(builders: seq<G.Builder>, rows: seq<G.Part>, frame: nat)
    requires rows == []
    ensures forall key, view: nat :: !Tested(builders, rows, frame, key, view)
  {
  }

  /** The level does depend on the order: it is that of the last row that passed. */
  lemma {:induction false} LevelDependsOnOrder(b: G.Builder, p: G.Part, q: G.Part, a: Views, c: Views)
    requires Counts(p, p.frame) && p.builder == 0 && p.passed != 0 && q == p.(lod := q.lod) && q.lod != p.lod
    requires ViewsOf([b], [p, q], p.frame, a) && ViewsOf([b], [q, p], p.frame, c)
    ensures var key := KeyOf([b], p);
      Has(a, key, p.view) && Has(c, key, p.view) && a[key][p.view].lod == Some(q.lod) &&
      c[key][p.view].lod == Some(p.lod)
  {
    var key := KeyOf([b], p);
    assert Tests([b], [p, q], p.frame, key, p.view, 1) && Tests([b], [q, p], p.frame, key, p.view, 1);
    assert LastPass([b], [p, q], p.frame, key, p.view, 1) && LastPass([b], [q, p], p.frame, key, p.view, 1);
  }

  /** In whatever order, and however often, the rows were recorded, the same parts are tested and the same pass. */
  lemma {:induction false} RowOrderDoesNotMatter(builders: seq<G.Builder>, a: seq<G.Part>, b: seq<G.Part>, frame: nat,
      key: PartKey, view: nat)
    requires Linked(builders, a) && Linked(builders, b) && forall p :: p in a <==> p in b
    ensures Tested(builders, a, frame, key, view) <==> Tested(builders, b, frame, key, view)
    ensures Passed(builders, a, frame, key, view) <==> Passed(builders, b, frame, key, view)
  {
    RowsCarry(builders, a, b, frame, key, view);
    RowsCarry(builders, b, a, frame, key, view);
  }

  lemma {:induction false} RowsCarry(builders: seq<G.Builder>, a: seq<G.Part>, b: seq<G.Part>, frame: nat, key: PartKey,
      view: nat)
    requires Linked(builders, a) && Linked(builders, b) && forall p :: p in a ==> p in b
    ensures Tested(builders, a, frame, key, view) ==> Tested(builders, b, frame, key, view)
    ensures Passed(builders, a, frame, key, view) ==> Passed(builders, b, frame, key, view)
  {
    hide Excluded;
    if i: nat :| i < |a| && Tests(builders, a, frame, key, view, i) {
      assert a[i] in b;
      var j: nat :| j < |b| && b[j] == a[i];
      assert Tests(builders, b, frame, key, view, j);
    }
    if i: nat :| i < |a| && Tests(builders, a, frame, key, view, i) && a[i].passed != 0 {
      assert a[i] in b;
      var j: nat :| j < |b| && b[j] == a[i];
      assert Tests(builders, b, frame, key, view, j);
    }
  }

  // ---------------------------------------------------------------- the verdict in an eye

  datatype Verdict = Admitted | Rejected | Untested

  /**
   part_eye_verdicts, of one part in one eye: the part test's verdict; a reject where the record never admitted the eye;
   untested where it did but no row tested the part.
   */
  function VerdictOf(views: Views, key: PartKey, view: nat, recordAdmits: bool): Verdict {
    if Has(views, key, view) then (if views[key][view].passed then Admitted else Rejected)
    else if recordAdmits then Untested
    else Rejected
  }

  /**
   Admitted exactly when a row passed, untested exactly when the record admitted the eye and no row tested the part.
   */
  lemma VerdictIsFromTheRows(builders: seq<G.Builder>, rows: seq<G.Part>, frame: nat, views: Views, key: PartKey,
      view: nat, recordAdmits: bool)
    requires Linked(builders, rows) && ViewsOf(builders, rows, frame, views)
    ensures VerdictOf(views, key, view, recordAdmits).Admitted? <==> Passed(builders, rows, frame, key, view)
    ensures VerdictOf(views, key, view, recordAdmits).Untested? <==>
      recordAdmits && !Tested(builders, rows, frame, key, view)
  {
    hide Tested, Passed;
    PassedIsTested(builders, rows, frame);
  }

  // ---------------------------------------------------------------- the tally

  /** The parts that claim each slot, the slots each eye drew, and the verdicts. */
  datatype Scene = Scene(claims: map<nat, set<PartKey>>, drawn: map<Eye, set<nat>>,
      verdicts: map<(PartKey, Eye), Verdict>) {
    /** No verdict is untested. */
    function Of(key: PartKey, e: Eye): Verdict { if (key, e) in verdicts then verdicts[(key, e)] else Untested }

    function Drawn(e: Eye): set<nat> { if e in drawn then drawn[e] else {} }

    function Claimants(slot: nat): set<PartKey> { if slot in claims then claims[slot] else {} }

    /** The parts that claim a slot. */
    function Parts(): set<PartKey> { set slot, key | slot in claims && key in claims[slot] :: key }

    /** A slot of the part is drawn in the eye. */
    predicate Hit(key: PartKey, e: Eye) { exists slot :: slot in Drawn(e) && key in Claimants(slot) }

    predicate NoneAdmits(slot: nat, e: Eye) {
      Claimants(slot) != {} && forall key :: key in Claimants(slot) ==> !Of(key, e).Admitted?
    }

    predicate AllReject(slot: nat, e: Eye) {
      Claimants(slot) != {} && forall key :: key in Claimants(slot) ==> Of(key, e).Rejected?
    }

    function RejectedDrawn(e: Eye): set<nat> { set slot | slot in Drawn(e) && AllReject(slot, e) }

    function UntestedDrawn(e: Eye): set<nat> {
      set slot | slot in Drawn(e) && NoneAdmits(slot, e) && !AllReject(slot, e)
    }

    /** The parts with one verdict that are hit in the eye, or are not. */
    function Having(v: Verdict, hit: bool, e: Eye): set<PartKey> {
      set key | key in Parts() && Of(key, e) == v && Hit(key, e) == hit
    }
  }

  datatype Tally = Tally(rejectedDrawn: nat, untestedDrawn: nat, admittedUndrawn: nat, admittedDrawn: nat,
      rejectedUndrawn: nat, untested: nat)

  /** The columns of one eye. */
  function TallyOf(s: Scene, e: Eye): Tally {
    Tally(|s.RejectedDrawn(e)|, |s.UntestedDrawn(e)|, |s.Having(Admitted, false, e)|, |s.Having(Admitted, true, e)|,
        |s.Having(Rejected, false, e)|,
          |s.Having(Untested, false, e)| + |s.Having(Untested, true, e)|)
  }

  /** What the columns of slots count, in plain terms. */
  lemma SlotsTallied(s: Scene, e: Eye)
    ensures TallyOf(s, e).rejectedDrawn == |set slot | slot in s.Drawn(e) && s.Claimants(slot) != {} &&
      (forall key :: key in s.Claimants(slot) ==> s.Of(key, e) == Rejected)|
    ensures TallyOf(s, e).untestedDrawn == |set slot | slot in s.Drawn(e) &&
      (forall key :: key in s.Claimants(slot) ==> s.Of(key, e) != Admitted) &&
      (exists key :: key in s.Claimants(slot) && s.Of(key, e) == Untested)|
  {
    hide Scene.Parts, Scene.Hit, Scene.Having, Scene.Drawn, Scene.Claimants, Scene.Of;
    assert s.RejectedDrawn(e) == set slot | slot in s.Drawn(e) && s.Claimants(slot) != {} &&
      (forall key :: key in s.Claimants(slot) ==> s.Of(key, e) == Rejected);
    assert s.UntestedDrawn(e) == set slot | slot in s.Drawn(e) &&
      (forall key :: key in s.Claimants(slot) ==> s.Of(key, e) != Admitted) &&
      (exists key :: key in s.Claimants(slot) && s.Of(key, e) == Untested);
  }

  /** And what the columns of parts count. */
  lemma PartsTallied(s: Scene, e: Eye)
    ensures TallyOf(s, e).admittedUndrawn ==
      |set key | key in s.Parts() && s.Of(key, e) == Admitted && !s.Hit(key, e)|
    ensures TallyOf(s, e).admittedDrawn == |set key | key in s.Parts() && s.Of(key, e) == Admitted && s.Hit(key, e)|
    ensures TallyOf(s, e).rejectedUndrawn ==
      |set key | key in s.Parts() && s.Of(key, e) == Rejected && !s.Hit(key, e)|
    ensures TallyOf(s, e).untested == |set key | key in s.Parts() && s.Of(key, e) == Untested|
  {
    hide Scene.Parts, Scene.Hit, Scene.Of, Scene.RejectedDrawn, Scene.UntestedDrawn;
    assert s.Having(Admitted, false, e) == set key | key in s.Parts() && s.Of(key, e) == Admitted && !s.Hit(key, e);
    assert s.Having(Admitted, true, e) == set key | key in s.Parts() && s.Of(key, e) == Admitted && s.Hit(key, e);
    assert s.Having(Rejected, false, e) == set key | key in s.Parts() && s.Of(key, e) == Rejected && !s.Hit(key, e);
    Halves((set key | key in s.Parts() && s.Of(key, e) == Untested), s.Having(Untested, false, e),
      s.Having(Untested, true, e));
  }

  function Add(a: Tally, b: Tally): Tally {
    Tally(a.rejectedDrawn + b.rejectedDrawn, a.untestedDrawn + b.untestedDrawn, a.admittedUndrawn + b.admittedUndrawn,
          a.admittedDrawn + b.admittedDrawn, a.rejectedUndrawn + b.rejectedUndrawn, a.untested + b.untested)
  }

  /** How many of a column are done so far. */
  ghost function Share<K>(all: set<K>, done: set<K>): nat { |all * done| }

  lemma OneMore<K>(all: set<K>, done: set<K>, key: K)
    requires key !in done
    ensures Share(all, done + {key}) == Share(all, done) + if key in all then 1 else 0
  {
    if key in all {
      assert all * (done + {key}) == all * done + {key};
    } else {
      assert all * (done + {key}) == all * done;
    }
  }

  lemma SlotColumns(s: Scene, e: Eye, slot: nat)
    requires slot in s.Drawn(e)
    ensures slot in s.RejectedDrawn(e) <==> s.AllReject(slot, e)
    ensures slot in s.UntestedDrawn(e) <==> s.NoneAdmits(slot, e) && !s.AllReject(slot, e)
    ensures s.AllReject(slot, e) ==> s.NoneAdmits(slot, e)
  {
  }

  lemma ColumnsAreDrawn(s: Scene, e: Eye)
    ensures Share(s.RejectedDrawn(e), {}) == 0 && Share(s.RejectedDrawn(e), s.Drawn(e)) == |s.RejectedDrawn(e)|
    ensures Share(s.UntestedDrawn(e), {}) == 0 && Share(s.UntestedDrawn(e), s.Drawn(e)) == |s.UntestedDrawn(e)|
  {
    assert s.RejectedDrawn(e) * s.Drawn(e) == s.RejectedDrawn(e) &&
      s.UntestedDrawn(e) * s.Drawn(e) == s.UntestedDrawn(e);
  }

  /** The drawn slots of one eye, one by one. */
  method TallySlots(s: Scene, e: Eye) returns (rejected: nat, untested: nat)
    ensures rejected == |s.RejectedDrawn(e)| && untested == |s.UntestedDrawn(e)|
  {
    hide Share, Scene.RejectedDrawn, Scene.UntestedDrawn, Scene.AllReject, Scene.NoneAdmits, Scene.Drawn, Scene.Of,
        Scene.Claimants;
    ColumnsAreDrawn(s, e);
    rejected, untested := 0, 0;
    var rest := s.Drawn(e);
    ghost var done: set<nat> := {};
    while rest != {}
      invariant rest <= s.Drawn(e) && done == s.Drawn(e) - rest
      invariant rejected == Share(s.RejectedDrawn(e), done) && untested == Share(s.UntestedDrawn(e), done)
      decreases rest
    {
      var slot :| slot in rest;
      rest := rest - {slot};
      SlotColumns(s, e, slot);
      OneMore(s.RejectedDrawn(e), done, slot);
      OneMore(s.UntestedDrawn(e), done, slot);
      done := done + {slot};
      if s.NoneAdmits(slot, e) {
        if s.AllReject(slot, e) {
          rejected := rejected + 1;
        } else {
          untested := untested + 1;
        }
      }
    }
    assert done == s.Drawn(e);
  }

  lemma PartColumn(s: Scene, e: Eye, key: PartKey, v: Verdict, hit: bool)
    requires key in s.Parts()
    ensures key in s.Having(v, hit, e) <==> s.Of(key, e) == v && s.Hit(key, e) == hit
  {
  }

  lemma ColumnOfParts(s: Scene, e: Eye, v: Verdict, hit: bool)
    ensures s.Having(v, hit, e) * s.Parts() == s.Having(v, hit, e)
  {
  }

  lemma DoneStep(s: Scene, e: Eye, v: Verdict, hit: bool, done: set<PartKey>, key: PartKey)
    requires key in s.Parts() && key !in done
    ensures Share(s.Having(v, hit, e), done + {key}) ==
      Share(s.Having(v, hit, e), done) + if s.Of(key, e) == v && s.Hit(key, e) == hit then 1 else 0
  {
    hide Scene.Having, Scene.Parts, Scene.Hit, Scene.Of;
    PartColumn(s, e, key, v, hit);
    OneMore(s.Having(v, hit, e), done, key);
  }

  lemma DoneStarts(s: Scene, e: Eye, v: Verdict, hit: bool)
    ensures Share(s.Having(v, hit, e), {}) == 0 && Share(s.Having(v, hit, e), s.Parts()) == |s.Having(v, hit, e)|
  {
    hide Scene.Having, Scene.Parts;
    assert s.Having(v, hit, e) * {} == {};
    ColumnOfParts(s, e, v, hit);
  }

  /** The claiming parts in one eye, one by one. */
  method TallyParts(s: Scene, e: Eye) returns (undrawn: nat, drawn: nat, agreed: nat, untested: nat)
    ensures undrawn == |s.Having(Admitted, false, e)| && drawn == |s.Having(Admitted, true, e)| &&
        agreed == |s.Having(Rejected, false, e)|
    ensures untested == |s.Having(Untested, false, e)| + |s.Having(Untested, true, e)|
  {
    hide Share, Scene.Having, Scene.Parts, Scene.Hit, Scene.Of;
    undrawn, drawn, agreed, untested := 0, 0, 0, 0;
    var rest := s.Parts();
    ghost var done: set<PartKey> := {};
    DoneStarts(s, e, Admitted, false);
    DoneStarts(s, e, Admitted, true);
    DoneStarts(s, e, Rejected, false);
    DoneStarts(s, e, Untested, false);
    DoneStarts(s, e, Untested, true);
    while rest != {}
      invariant rest <= s.Parts() && done == s.Parts() - rest
      invariant undrawn == Share(s.Having(Admitted, false, e), done) &&
        drawn == Share(s.Having(Admitted, true, e), done)
      invariant agreed == Share(s.Having(Rejected, false, e), done)
      invariant untested == Share(s.Having(Untested, false, e), done) + Share(s.Having(Untested, true, e), done)
      decreases rest
    {
      var key :| key in rest;
      rest := rest - {key};
      DoneStep(s, e, Admitted, false, done, key);
      DoneStep(s, e, Admitted, true, done, key);
      DoneStep(s, e, Rejected, false, done, key);
      DoneStep(s, e, Untested, false, done, key);
      DoneStep(s, e, Untested, true, done, key);
      done := done + {key};
      var hit := s.Hit(key, e);
      match s.Of(key, e) {
        case Admitted =>
          if hit { drawn := drawn + 1; } else { undrawn := undrawn + 1; }
        case Rejected =>
          if !hit { agreed := agreed + 1; }
        case Untested => untested := untested + 1;
      }
    }
    assert done == s.Parts();
  }

  /** part_tally: both eyes. */
  method PartTally(s: Scene) returns (t: Tally)
    ensures t == Add(TallyOf(s, EyeA), TallyOf(s, EyeB))
  {
    hide Scene.RejectedDrawn, Scene.UntestedDrawn, Scene.Having;
    var ra, ua := TallySlots(s, EyeA);
    var pa, da, aa, na := TallyParts(s, EyeA);
    var rb, ub := TallySlots(s, EyeB);
    var pb, db, ab, nb := TallyParts(s, EyeB);
    t := Tally(ra + rb, ua + ub, pa + pb, da + db, aa + ab, na + nb);
  }

  // ---------------------------------------------------------------- what the columns say

  /**
   The admission explains the draws of an eye: no drawn slot is one all its claimants reject, no admitted part has
   nothing drawn.
   */
  ghost predicate Explains(s: Scene, e: Eye) {
    (forall slot :: slot in s.Drawn(e) ==> !s.AllReject(slot, e)) &&
    forall key :: key in s.Parts() && s.Of(key, e).Admitted? ==> s.Hit(key, e)
  }

  /** Both violation columns are zero exactly when the admission explains the draws of both eyes. */
  lemma NoViolationIffExplained(s: Scene)
    ensures var t := Add(TallyOf(s, EyeA), TallyOf(s, EyeB));
      t.rejectedDrawn == 0 && t.admittedUndrawn == 0 <==> Explains(s, EyeA) && Explains(s, EyeB)
  {
    hide Scene.AllReject, Scene.Parts, Scene.Hit;
    EyeExplained(s, EyeA);
    EyeExplained(s, EyeB);
  }

  lemma EyeExplained(s: Scene, e: Eye)
    ensures s.RejectedDrawn(e) == {} && s.Having(Admitted, false, e) == {} <==> Explains(s, e)
  {
    hide Scene.AllReject, Scene.Parts, Scene.Hit;
    assert (forall slot :: slot in s.Drawn(e) ==> !s.AllReject(slot, e)) <==> s.RejectedDrawn(e) == {} by {
      if slot :| slot in s.Drawn(e) && s.AllReject(slot, e) {
        assert slot in s.RejectedDrawn(e);
      }
    }
    if key :| key in s.Parts() && s.Of(key, e).Admitted? && !s.Hit(key, e) {
      assert key in s.Having(Admitted, false, e);
    }
  }

  /** With nothing untested, an explained eye draws of the claimed slots only those some claimant is admitted for. */
  lemma ExplainedDrawsAreAdmitted(s: Scene, e: Eye, slot: nat)
    requires Explains(s, e) && slot in s.Drawn(e) && s.Claimants(slot) != {} &&
      forall key :: key in s.Claimants(slot) ==> !s.Of(key, e).Untested?
    ensures exists key :: key in s.Claimants(slot) && s.Of(key, e).Admitted?
  {
    assert !s.AllReject(slot, e);
  }

  lemma Halves<K>(whole: set<K>, a: set<K>, b: set<K>)
    requires whole == a + b && a !! b
    ensures |whole| == |a| + |b|
  {
  }

  /** The parts with one verdict in the eye. */
  ghost function Given(s: Scene, v: Verdict, e: Eye): set<PartKey> { set key | key in s.Parts() && s.Of(key, e) == v }

  lemma GivenSplits(s: Scene, v: Verdict, e: Eye)
    ensures |Given(s, v, e)| == |s.Having(v, false, e)| + |s.Having(v, true, e)|
  {
    hide Scene.Parts, Scene.Hit, Scene.Of;
    Halves(Given(s, v, e), s.Having(v, false, e), s.Having(v, true, e));
  }

  lemma PartsSplit(s: Scene, e: Eye)
    ensures |s.Parts()| == |Given(s, Admitted, e)| + |Given(s, Rejected, e)| + |Given(s, Untested, e)|
  {
    hide Scene.Parts, Scene.Of;
    var judged := Given(s, Admitted, e) + Given(s, Rejected, e);
    Halves(judged, Given(s, Admitted, e), Given(s, Rejected, e));
    Halves(s.Parts(), judged, Given(s, Untested, e));
  }

  /** Every part claiming a slot is in one column, or rejected with a slot drawn: a twin that draws there excuses it. */
  lemma EveryPartIsPlaced(s: Scene, e: Eye)
    ensures var t := TallyOf(s, e);
      t.admittedUndrawn + t.admittedDrawn + t.rejectedUndrawn + t.untested + |s.Having(Rejected, true, e)| ==
        |s.Parts()|
  {
    hide Scene.Parts, Scene.Having, Given;
    PartsSplit(s, e);
    GivenSplits(s, Admitted, e);
    GivenSplits(s, Rejected, e);
    GivenSplits(s, Untested, e);
  }

  /** A slot one of whose claimants is admitted counts against nothing, whatever the others' verdicts. */
  lemma TwinsAreExcused(s: Scene, e: Eye, slot: nat, key: PartKey)
    requires key in s.Claimants(slot) && s.Of(key, e).Admitted?
    ensures slot !in s.RejectedDrawn(e) && slot !in s.UntestedDrawn(e)
    ensures slot in s.Drawn(e) ==>
      forall twin :: twin in s.Claimants(slot) ==>
        twin !in s.Having(Admitted, false, e) && twin !in s.Having(Rejected, false, e)
  {
  }
}
