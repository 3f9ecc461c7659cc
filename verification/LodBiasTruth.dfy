/**
 What the LOD-bias estimate of tools/cull_gate_probe.py is an estimate of: which parts would still pass the engine's own
 test if the bias were applied to it. The tool looks at the rows it can re-run; the engine tested every row. This module
 says exactly when the interval the tool prints contains the answer.
 */
module LodBiasTruth {
  import opened Prelude
  import opened LodBias
  import P = PartVerdicts
  import G = GateCodec

  // ---------------------------------------------------------------- the engine's test

  /** Where a bias k acts: on the size threshold, the view's scale, the LOD distance, or the context's scale. */
  datatype Bias = PixelSize | ViewScale | WholeDistance | ContextScale

  /** The form the tool estimates it with. */
  function FormOf(b: Bias): Form {
    match b
    case PixelSize => Size
    case ViewScale => Scale
    case WholeDistance => Distance
    case ContextScale => Distance
  }

  /** What one part test of the engine looks at. */
  datatype Terms = Terms(A: real, d: real, B: real, R: real, s: real, inside: bool, t0: real)

  function BiasedDistance(k: real, b: Bias, x: Terms): real {
    match b
    case PixelSize => LodDistance(x.A, x.d, x.R, x.s, x.B)
    case ViewScale => LodDistance(k * x.A, x.d, x.R, x.s, x.B)
    case WholeDistance => k * LodDistance(x.A, x.d, x.R, x.s, x.B)
    case ContextScale => LodDistance(x.A, x.d, x.R, k * x.s, x.B)
  }

  predicate BiasedSize(k: real, b: Bias, x: Terms) {
    if b in {PixelSize, ViewScale} then SIZE_FACTOR * (k * x.A * x.d + x.B) <= x.R
    else SIZE_FACTOR * (x.A * x.d + x.B) <= x.R
  }

  predicate EnginePasses(k: real, b: Bias, x: Terms) {
    BiasedSize(k, b, x) && x.inside && BiasedDistance(k, b, x) <= x.t0
  }

  /** The engine's own verdict: no bias. */
  predicate EngineAdmits(x: Terms) {
    SIZE_FACTOR * (x.A * x.d + x.B) <= x.R && x.inside && LodDistance(x.A, x.d, x.R, x.s, x.B) <= x.t0
  }

  /** A bias of one is none. */
  lemma BiasOneIsNone(b: Bias, x: Terms)
    ensures EnginePasses(1.0, b, x) <==> EngineAdmits(x)
    ensures BiasedDistance(1.0, b, x) == LodDistance(x.A, x.d, x.R, x.s, x.B)
  {
  }

  // ---------------------------------------------------------------- what is observed

  /** The part rows, the terms re-run on each, the frame observed, the views of the eyes, and the parts asked about. */
  datatype Observation = Observation(builders: seq<G.Builder>, parts: seq<G.Part>, rows: seq<Row>, frame: nat,
      viewA: nat, viewB: nat, keys: seq<PartKey>)

  /** The terms re-run are those of the row; the eyes have a view each. */
  ghost predicate Observed(o: Observation) {
    |o.rows| == |o.parts| && P.Linked(o.builders, o.parts) && o.viewA != o.viewB &&
    forall i: nat :: i < |o.rows| ==> Rerun(o.rows[i], o.parts[i])
  }

  predicate Rerun(r: Row, p: G.Part) {
    (r.passed <==> p.passed != 0) && r.f == LodDistance(r.A, r.d, r.R, r.s, r.B) &&
    (r.sizeOk <==> SIZE_FACTOR * (r.A * r.d + r.B) <= r.R)
  }

  function ViewOf(o: Observation, e: Eye): nat { if e.EyeA? then o.viewA else o.viewB }

  /** The row can be re-run: there was a view dump, and its identity and its sphere were read. */
  predicate Trusted(o: Observation, i: nat)
    requires i < |o.rows| == |o.parts|
  {
    o.rows[i].ok && !P.Excluded(o.parts[i]) && o.parts[i].flags / 16 % 2 == 0
  }

  /** Row i tests the j-th part in the eye. */
  predicate TestsIn(o: Observation, e: Eye, j: nat, i: nat)
    requires j < |o.keys| && i < |o.parts| && G.PartInRange(o.parts[i], |o.builders|)
  {
    P.Tests(o.builders, o.parts, o.frame, o.keys[j], ViewOf(o, e), i)
  }

  /** Row i is one the engine admitted the j-th part by in the eye. */
  ghost predicate Admits(o: Observation, e: Eye, j: nat, i: nat)
    requires Observed(o) && j < |o.keys|
  {
    i < |o.rows| && TestsIn(o, e, j, i) && o.rows[i].passed
  }

  /** The parts with their admission and their counted rows, as the tool gathers them. */
  ghost predicate PartsOf(o: Observation, parts: Parts)
    requires Observed(o)
  {
    parts.keys == o.keys && ValidParts(parts, o.rows) &&
    forall e: Eye, j: nat :: j < |o.keys| ==> AdmittedRight(o, parts, e, j) && CountedRight(o, parts, e, j)
  }

  ghost predicate AdmittedRight(o: Observation, parts: Parts, e: Eye, j: nat)
    requires Observed(o) && parts.keys == o.keys && ValidParts(parts, o.rows) && j < |o.keys|
  {
    parts.admitted[e][j] <==> exists i: nat :: Admits(o, e, j, i)
  }

  ghost predicate CountedRight(o: Observation, parts: Parts, e: Eye, j: nat)
    requires Observed(o) && parts.keys == o.keys && j < |o.keys|
  {
    forall i: nat :: i in RowsOf(parts, j, e) <==> i < |o.rows| && TestsIn(o, e, j, i) && Trusted(o, i)
  }

  // ---------------------------------------------------------------- what may be true

  /** A t0 for each model, one for each row without a model, and the terms of the rows that cannot be re-run. */
  datatype World = World(t0: nat -> real, own: nat -> real, hidden: nat -> Terms)

  function Threshold(o: Observation, w: World, i: nat): real
    requires i < |o.rows|
  {
    var r := o.rows[i];
    if Tabled(r) then r.tab.value.t[0] else if r.model != 0 then w.t0(r.model) else w.own(i)
  }

  function Recorded(r: Row, t0: real): Terms { Terms(r.A, r.d, r.B, r.R, r.s, r.inside, t0) }

  /** What the engine looked at in row i. */
  function TermsOf(o: Observation, w: World, i: nat): Terms
    requires i < |o.rows| == |o.parts|
  {
    if Trusted(o, i) then Recorded(o.rows[i], Threshold(o, w, i)) else w.hidden(i)
  }

  /** The rows with those that cannot be trusted left out. */
  function TrustedRows(o: Observation): (rows: seq<Row>)
    requires |o.rows| == |o.parts|
    ensures |rows| == |o.rows|
    ensures forall i: nat :: i < |rows| ==> rows[i] == o.rows[i].(ok := Trusted(o, i))
  {
    seq(|o.rows|, i requires 0 <= i < |o.rows| => o.rows[i].(ok := Trusted(o, i)))
  }

  /** The engine's verdict of row i is the one recorded; a scale and a distance are not negative. */
  predicate Accounts(o: Observation, w: World, i: nat)
    requires i < |o.rows| == |o.parts|
  {
    (EngineAdmits(TermsOf(o, w, i)) <==> o.rows[i].passed) &&
    (!Trusted(o, i) ==> w.hidden(i).A >= 0.0 && w.hidden(i).d >= 0.0)
  }

  /** The world accounts for everything that was recorded. */
  ghost predicate Consistent(o: Observation, w: World)
    requires |o.rows| == |o.parts|
  {
    Explains(TrustedRows(o), w.t0) && forall i: nat :: i < |o.rows| ==> Accounts(o, w, i)
  }

  /** Under the bias the j-th part still passes in the eye: some test it passed, counted or not, still passes. */
  ghost predicate StillPasses(o: Observation, k: real, b: Bias, w: World, e: Eye, j: nat)
    requires Observed(o) && j < |o.keys|
  {
    exists i: nat :: Admits(o, e, j, i) && EnginePasses(k, b, TermsOf(o, w, i))
  }

  ghost function TrueFlags(o: Observation, k: real, b: Bias, w: World, e: Eye): (flags: seq<bool>)
    requires Observed(o)
    ensures |flags| == |o.keys| && forall j: nat :: j < |o.keys| ==> (flags[j] <==> StillPasses(o, k, b, w, e, j))
  {
    seq(|o.keys|, j requires 0 <= j < |o.keys| => StillPasses(o, k, b, w, e, j))
  }

  /** The parts that are truly kept. */
  ghost function TrulyKept(o: Observation, k: real, b: Bias, w: World): (kept: map<Eye, seq<bool>>)
    requires Observed(o)
  {
    map e: Eye :: TrueFlags(o, k, b, w, e)
  }

  ghost function TrulyRemoved(o: Observation, k: real, b: Bias, w: World, claims: Claims, draws: seq<EyeDraw>): nat
    requires Observed(o) && ClaimsIn(claims, |o.keys|)
  {
    CountTrue(DrawsRemoved(TrulyKept(o, k, b, w), claims, draws))
  }

  /** At a bias of one exactly the parts the engine admitted are kept. */
  lemma BiasOneKeepsTheAdmitted(o: Observation, b: Bias, w: World, parts: Parts, e: Eye, j: nat)
    requires Observed(o) && PartsOf(o, parts) && Consistent(o, w) && j < |o.keys|
    ensures StillPasses(o, 1.0, b, w, e, j) <==> parts.admitted[e][j]
  {
    hide EnginePasses, EngineAdmits, TestsIn, Trusted, CountedRight;
    assert AdmittedRight(o, parts, e, j);
    forall i: nat | Admits(o, e, j, i)
      ensures EnginePasses(1.0, b, TermsOf(o, w, i))
    {
      assert Accounts(o, w, i);
      BiasOneIsNone(b, TermsOf(o, w, i));
    }
  }

  // ---------------------------------------------------------------- the range of the truth

  /** The least t0 row i can have been tested with, as far as the trusted rows say. */
  function Low(r: Row, br: Brackets): real {
    if Tabled(r) then r.tab.value.t[0] else if r.model in br.lo then br.lo[r.model] else r.f
  }

  /** Some t0 the row can have been tested with is at least x. */
  predicate Reaches(r: Row, br: Brackets, x: real) {
    if Tabled(r) then x <= r.tab.value.t[0] else r.model in br.hi ==> x < br.hi[r.model]
  }

  /** The engine's biased test of a trusted row, for certain and possibly. */
  predicate MustStand(k: real, b: Bias, r: Row, br: Brackets) {
    BiasedSize(k, b, Recorded(r, 0.0)) && BiasedDistance(k, b, Recorded(r, 0.0)) <= Low(r, br)
  }

  predicate CanStand(k: real, b: Bias, r: Row, br: Brackets) {
    BiasedSize(k, b, Recorded(r, 0.0)) && Reaches(r, br, BiasedDistance(k, b, Recorded(r, 0.0)))
  }

  /** No test that passed can fail under the bias. */
  predicate Harmless(k: real, b: Bias) { k == 1.0 || (b.PixelSize? && k < 1.0) }

  /** The part is kept whatever is true of what was not recorded. */
  ghost predicate Must(o: Observation, k: real, b: Bias, br: Brackets, e: Eye, j: nat)
    requires Observed(o) && j < |o.keys|
  {
    exists i: nat :: Admits(o, e, j, i) && if Trusted(o, i) then MustStand(k, b, o.rows[i], br) else Harmless(k, b)
  }

  /** It may be kept. */
  ghost predicate Can(o: Observation, k: real, b: Bias, br: Brackets, e: Eye, j: nat)
    requires Observed(o) && j < |o.keys|
  {
    exists i: nat :: Admits(o, e, j, i) && (Trusted(o, i) ==> CanStand(k, b, o.rows[i], br))
  }

  /** With a t0 no less than Low, what must stand stands; with one the trusted rows allow, what stands can. */
  lemma {:induction false} RowInRange(o: Observation, k: real, b: Bias, w: World, br: Brackets, i: nat)
    requires Observed(o) && Consistent(o, w) && BracketsOf(TrustedRows(o), br)
    requires i < |o.rows| && Trusted(o, i) && o.rows[i].passed
    ensures Low(o.rows[i], br) <= Threshold(o, w, i) && Reaches(o.rows[i], br, Threshold(o, w, i))
    ensures MustStand(k, b, o.rows[i], br) ==> EnginePasses(k, b, TermsOf(o, w, i))
    ensures EnginePasses(k, b, TermsOf(o, w, i)) ==> CanStand(k, b, o.rows[i], br)
  {
    hide Trusted, Low, Reaches, EnginePasses, BiasedSize, BiasedDistance, Tabled, Consistent;
    ThresholdInRange(o, w, br, i);
    InsideOf(o, w, i);
    PassesRecorded(k, b, o.rows[i], Threshold(o, w, i));
    ReachesLess(o.rows[i], br, BiasedDistance(k, b, Recorded(o.rows[i], 0.0)), Threshold(o, w, i));
  }

  lemma ReachesLess(r: Row, br: Brackets, x: real, y: real)
    requires Reaches(r, br, y)
    ensures x <= y ==> Reaches(r, br, x)
  {
  }

  /** Only the last comparison looks at the t0. */
  lemma PassesRecorded(k: real, b: Bias, r: Row, t0: real)
    ensures EnginePasses(k, b, Recorded(r, t0)) <==>
      BiasedSize(k, b, Recorded(r, 0.0)) && r.inside && BiasedDistance(k, b, Recorded(r, 0.0)) <= t0
  {
  }

  lemma {:induction false} ThresholdInRange(o: Observation, w: World, br: Brackets, i: nat)
    requires Observed(o) && Consistent(o, w) && BracketsOf(TrustedRows(o), br)
    requires i < |o.rows| && Trusted(o, i) && o.rows[i].passed
    ensures Low(o.rows[i], br) <= Threshold(o, w, i) && Reaches(o.rows[i], br, Threshold(o, w, i))
  {
    hide Trusted;
    var r, rows := o.rows[i], TrustedRows(o);
    assert Accounts(o, w, i);
    if !Tabled(r) && r.model in br.lo {
      var a :| 0 <= a < |rows| && PassRow(rows[a]) && rows[a].model == r.model && rows[a].f == br.lo[r.model];
    }
    if !Tabled(r) && r.model in br.hi {
      var a :| 0 <= a < |rows| && RejectRow(rows[a]) && rows[a].model == r.model && rows[a].f == br.hi[r.model];
    }
  }

  lemma NotNegative(x: real, y: real)
    requires x >= 0.0 && y >= 0.0
    ensures x * y >= 0.0
  {
  }

  lemma ProductGrows(k: real, x: real)
    requires k < 1.0 && x >= 0.0
    ensures k * x <= x
  {
    NotNegative(1.0 - k, x);
    assert (1.0 - k) * x == x - k * x;
  }

  lemma {:induction false} HarmlessKeeps(k: real, b: Bias, x: Terms)
    requires Harmless(k, b) && EngineAdmits(x) && x.A >= 0.0 && x.d >= 0.0
    ensures EnginePasses(k, b, x)
  {
    if k == 1.0 {
      BiasOneIsNone(b, x);
    } else {
      NotNegative(x.A, x.d);
      ProductGrows(k, x.A * x.d);
      Associative(k, x.A, x.d);
    }
  }

  lemma {:induction false} TruthInRange(o: Observation, k: real, b: Bias, w: World, br: Brackets, e: Eye, j: nat)
    requires Observed(o) && Consistent(o, w) && BracketsOf(TrustedRows(o), br) && j < |o.keys|
    ensures Must(o, k, b, br, e, j) ==> StillPasses(o, k, b, w, e, j)
    ensures StillPasses(o, k, b, w, e, j) ==> Can(o, k, b, br, e, j)
  {
    hide Trusted, TestsIn, MustStand, CanStand, EnginePasses, EngineAdmits, Harmless, Threshold;
    if i: nat :| Admits(o, e, j, i) && if Trusted(o, i) then MustStand(k, b, o.rows[i], br) else Harmless(k, b) {
      if Trusted(o, i) {
        RowInRange(o, k, b, w, br, i);
      } else {
        assert Accounts(o, w, i);
        HarmlessKeeps(k, b, TermsOf(o, w, i));
      }
    }
    if i: nat :| Admits(o, e, j, i) && EnginePasses(k, b, TermsOf(o, w, i)) {
      if Trusted(o, i) {
        RowInRange(o, k, b, w, br, i);
      }
    }
  }

  // ---------------------------------------------------------------- the range is reached

  /** Terms that pass whatever the bias. */
  const EASY: Terms := Terms(0.0, 0.0, 0.0, 0.0, 0.0, true, 0.0)

  /** Terms that pass without a bias and not with this one. */
  function Hard(k: real): Terms {
    if k > 1.0 then Terms(1.0, 1.0, 0.0, 0.5, 2.0, true, 1.0) else Terms(1.0, 0.0, 0.0, 1.0, 1.0, true, -1.0)
  }

  lemma HardFails(k: real, b: Bias)
    requires k > 0.0 && !Harmless(k, b)
    ensures EngineAdmits(Hard(k)) && !EnginePasses(k, b, Hard(k))
  {
    if k > 1.0 {
      assert Hard(k) == Terms(1.0, 1.0, 0.0, 0.5, 2.0, true, 1.0) && LodDistance(1.0, 1.0, 0.5, 2.0, 0.0) == 1.0;
      match b
      case PixelSize => assert k * 1.0 * 1.0 + 0.0 == k;
      case ViewScale => assert k * 1.0 * 1.0 + 0.0 == k;
      case WholeDistance => assert k * 1.0 == k;
      case ContextScale => assert LodDistance(1.0, 1.0, 0.5, k * 2.0, 0.0) == k;
    } else {
      assert Hard(k) == Terms(1.0, 0.0, 0.0, 1.0, 1.0, true, -1.0) && LodDistance(1.0, 0.0, 1.0, 1.0, 0.0) == -1.0;
      match b
      case PixelSize => assert false;
      case ViewScale => assert LodDistance(k * 1.0, 0.0, 1.0, 1.0, 0.0) == -k;
      case WholeDistance => assert k * -1.0 == -k;
      case ContextScale => assert LodDistance(1.0, 0.0, 1.0, k * 1.0, 0.0) == -k;
    }
  }

  lemma EasyPasses(k: real, b: Bias)
    ensures EngineAdmits(EASY) && EnginePasses(k, b, EASY)
  {
  }

  /** The t0 of the model of a passing row raised to x, which the trusted rows allow. */
  function Raised(o: Observation, w: World, i: nat, x: real): World
    requires i < |o.rows|
  {
    var m := o.rows[i].model;
    World((n: nat) => if n == m && w.t0(n) < x then x else w.t0(n),
          (n: nat) => if n == i && w.own(n) < x then x else w.own(n), w.hidden)
  }

  lemma {:induction false} RaisedIsConsistent(o: Observation, w: World, br: Brackets, i: nat, x: real)
    requires Observed(o) && Consistent(o, w) && BracketsOf(TrustedRows(o), br)
    requires i < |o.rows| && Trusted(o, i) && o.rows[i].passed && !Tabled(o.rows[i]) && Reaches(o.rows[i], br, x)
    ensures Consistent(o, Raised(o, w, i, x)) && x <= Threshold(o, Raised(o, w, i, x), i)
  {
    hide Trusted, Tabled;
    var v, rows, m := Raised(o, w, i, x), TrustedRows(o), o.rows[i].model;
    forall n | 0 <= n < |rows|
      ensures PassRow(rows[n]) ==> rows[n].f <= v.t0(rows[n].model)
      ensures RejectRow(rows[n]) ==> v.t0(rows[n].model) < rows[n].f
    {
    }
    forall n: nat | n < |o.rows|
      ensures Accounts(o, v, n)
    {
      RaisedAccounts(o, w, br, i, x, n);
    }
  }

  /** A trusted row is accounted for when the terms re-run on it and its t0 give its verdict. */
  lemma {:induction false} AccountsIff(o: Observation, w: World, n: nat)
    requires Observed(o) && n < |o.rows| && Trusted(o, n)
    ensures var r := o.rows[n];
      Accounts(o, w, n) <==> (r.passed <==> r.sizeOk && r.inside && r.f <= Threshold(o, w, n))
  {
    hide Trusted, Threshold, LodDistance;
    assert Rerun(o.rows[n], o.parts[n]);
  }

  lemma {:induction false} RaisedAccounts(o: Observation, w: World, br: Brackets, i: nat, x: real, n: nat)
    requires Observed(o) && Consistent(o, w) && BracketsOf(TrustedRows(o), br)
    requires i < |o.rows| && Trusted(o, i) && o.rows[i].passed && !Tabled(o.rows[i]) && Reaches(o.rows[i], br, x)
    requires n < |o.rows|
    ensures Accounts(o, Raised(o, w, i, x), n)
  {
    hide Trusted, Tabled, EngineAdmits;
    var r := o.rows[n];
    assert Accounts(o, w, n);
    if Trusted(o, n) {
      AccountsIff(o, w, n);
      AccountsIff(o, Raised(o, w, i, x), n);
      assert !r.passed && r.sizeOk && r.inside && r.model != 0 ==> RejectRow(TrustedRows(o)[n]);
    }
  }

  /** Where the part may be kept, a consistent world keeps it. */
  lemma {:induction false} CanIsReached(o: Observation, k: real, b: Bias, w: World, br: Brackets, e: Eye, j: nat)
      returns (v: World)
    requires Observed(o) && Consistent(o, w) && BracketsOf(TrustedRows(o), br)
    requires j < |o.keys| && Can(o, k, b, br, e, j)
    ensures Consistent(o, v) && StillPasses(o, k, b, v, e, j)
  {
    hide Trusted, TestsIn, Accounts;
    var i: nat :| Admits(o, e, j, i) && (Trusted(o, i) ==> CanStand(k, b, o.rows[i], br));
    if !Trusted(o, i) {
      v := World(w.t0, w.own, (n: nat) => if n == i then EASY else w.hidden(n));
      EasyPasses(k, b);
      forall n: nat | n < |o.rows|
        ensures Accounts(o, v, n)
      {
        HiddenAccounts(o, w, v, n);
      }
    } else {
      CanIsReachedBy(o, k, b, w, br, i);
      var x := BiasedDistance(k, b, Recorded(o.rows[i], 0.0));
      v := if Tabled(o.rows[i]) then w else Raised(o, w, i, x);
    }
  }

  lemma {:induction false} CanIsReachedBy(o: Observation, k: real, b: Bias, w: World, br: Brackets, i: nat)
    requires Observed(o) && Consistent(o, w) && BracketsOf(TrustedRows(o), br)
    requires i < |o.rows| && Trusted(o, i) && o.rows[i].passed && CanStand(k, b, o.rows[i], br)
    ensures var x := BiasedDistance(k, b, Recorded(o.rows[i], 0.0));
      var v := if Tabled(o.rows[i]) then w else Raised(o, w, i, x);
      Consistent(o, v) && EnginePasses(k, b, TermsOf(o, v, i))
  {
    hide Trusted, Tabled, Consistent, Raised, EnginePasses, BiasedSize, BiasedDistance;
    var x := BiasedDistance(k, b, Recorded(o.rows[i], 0.0));
    InsideOf(o, w, i);
    if Tabled(o.rows[i]) {
      PassesRecorded(k, b, o.rows[i], Threshold(o, w, i));
    } else {
      RaisedIsConsistent(o, w, br, i, x);
      PassesRecorded(k, b, o.rows[i], Threshold(o, Raised(o, w, i, x), i));
    }
  }

  lemma {:induction false} InsideOf(o: Observation, w: World, i: nat)
    requires Observed(o) && Consistent(o, w) && i < |o.rows| && Trusted(o, i) && o.rows[i].passed
    ensures o.rows[i].inside && o.rows[i].sizeOk && o.rows[i].f <= Threshold(o, w, i)
  {
    hide Trusted;
    assert Accounts(o, w, i);
    AccountsIff(o, w, i);
  }

  /** Other hidden terms that pass where the row did account for what was recorded. */
  lemma {:induction false} HiddenAccounts(o: Observation, w: World, v: World, n: nat)
    requires Observed(o) && n < |o.rows| && Accounts(o, w, n)
    requires Trusted(o, n) ==> Threshold(o, v, n) == Threshold(o, w, n)
    requires v.hidden(n) == w.hidden(n) ||
      (o.rows[n].passed && EngineAdmits(v.hidden(n)) && v.hidden(n).A >= 0.0 && v.hidden(n).d >= 0.0)
    ensures Accounts(o, v, n)
  {
  }

  /** The least t0 everywhere, and hidden terms that fail wherever they can. */
  function Lowered(o: Observation, k: real, b: Bias, w: World, br: Brackets): World
    requires |o.rows| == |o.parts|
  {
    World((m: nat) => if m in br.lo then br.lo[m] else w.t0(m),
          (n: nat) => if n < |o.rows| && o.rows[n].passed then o.rows[n].f else w.own(n),
          (n: nat) => if n < |o.rows| && o.rows[n].passed && !Harmless(k, b) then Hard(k) else w.hidden(n))
  }

  lemma {:induction false} LoweredIsConsistent(o: Observation, k: real, b: Bias, w: World, br: Brackets)
    requires Observed(o) && Consistent(o, w) && BracketsOf(TrustedRows(o), br) && k > 0.0
    ensures Consistent(o, Lowered(o, k, b, w, br))
  {
    hide Trusted, Tabled;
    var v, rows := Lowered(o, k, b, w, br), TrustedRows(o);
    forall n | 0 <= n < |rows|
      ensures PassRow(rows[n]) ==> rows[n].f <= v.t0(rows[n].model)
      ensures RejectRow(rows[n]) ==> v.t0(rows[n].model) < rows[n].f
    {
      LoIsBelow(rows, w.t0, br, rows[n].model);
    }
    forall n: nat | n < |o.rows|
      ensures Accounts(o, v, n)
    {
      LoweredAccounts(o, k, b, w, br, n);
    }
  }

  lemma {:induction false} LoIsBelow(rows: seq<Row>, t0: nat -> real, br: Brackets, m: nat)
    requires Explains(rows, t0) && BracketsOf(rows, br)
    ensures m in br.lo ==> br.lo[m] <= t0(m) && m != 0
  {
    if m in br.lo {
      var a :| 0 <= a < |rows| && PassRow(rows[a]) && rows[a].model == m && rows[a].f == br.lo[m];
    }
  }

  lemma {:induction false} LoweredAccounts(o: Observation, k: real, b: Bias, w: World, br: Brackets, n: nat)
    requires Observed(o) && Consistent(o, w) && BracketsOf(TrustedRows(o), br) && k > 0.0 && n < |o.rows|
    ensures Accounts(o, Lowered(o, k, b, w, br), n)
    ensures Trusted(o, n) && o.rows[n].passed ==> Threshold(o, Lowered(o, k, b, w, br), n) == Low(o.rows[n], br)
  {
    hide Trusted, Tabled, Hard, EngineAdmits;
    var r := o.rows[n];
    assert Accounts(o, w, n);
    LoIsBelow(TrustedRows(o), w.t0, br, r.model);
    if Trusted(o, n) {
      AccountsIff(o, w, n);
      AccountsIff(o, Lowered(o, k, b, w, br), n);
    }
    assert Trusted(o, n) && r.passed && r.model != 0 ==> PassRow(TrustedRows(o)[n]);
    if !Harmless(k, b) {
      HardFails(k, b);
      HardIsPlain(k);
    }
  }

  lemma HardIsPlain(k: real)
    ensures Hard(k).A >= 0.0 && Hard(k).d >= 0.0
  {
  }

  /** Where the part need not be kept, a consistent world loses it. */
  lemma {:induction false} MustIsReached(o: Observation, k: real, b: Bias, w: World, br: Brackets, e: Eye, j: nat)
      returns (v: World)
    requires Observed(o) && Consistent(o, w) && BracketsOf(TrustedRows(o), br) && k > 0.0
    requires j < |o.keys| && !Must(o, k, b, br, e, j)
    ensures Consistent(o, v) && !StillPasses(o, k, b, v, e, j)
  {
    hide Trusted, TestsIn, Consistent, Hard, Low;
    v := Lowered(o, k, b, w, br);
    LoweredIsConsistent(o, k, b, w, br);
    forall i: nat | Admits(o, e, j, i)
      ensures !EnginePasses(k, b, TermsOf(o, v, i))
    {
      if Trusted(o, i) {
        LoweredAccounts(o, k, b, w, br, i);
        assert !MustStand(k, b, o.rows[i], br);
      } else {
        HardFails(k, b);
      }
    }
  }

  // ---------------------------------------------------------------- when the interval contains the truth

  /** What is kept for certain is truly kept, and what is truly kept is kept possibly, in every consistent world. */
  ghost predicate Sound(o: Observation, k: real, b: Bias, parts: Parts, br: Brackets)
    requires Observed(o) && PartsOf(o, parts)
  {
    forall w: World :: Consistent(o, w) ==> Spans(o, k, b, parts, br, w)
  }

  ghost predicate Spans(o: Observation, k: real, b: Bias, parts: Parts, br: Brackets, w: World)
    requires Observed(o) && PartsOf(o, parts)
  {
    KeptWithin(KeptUnder(k, FormOf(b), parts, o.rows, Sure(br)), TrulyKept(o, k, b, w)) &&
    KeptWithin(TrulyKept(o, k, b, w), KeptUnder(k, FormOf(b), parts, o.rows, Maybe(br)))
  }

  /** What the tool says of a part leaves room for all that may be true of it. */
  ghost predicate LeavesRoom(o: Observation, k: real, b: Bias, parts: Parts, br: Brackets, brT: Brackets, e: Eye,
      j: nat)
    requires Observed(o) && PartsOf(o, parts) && j < |o.keys|
  {
    (PartKept(k, FormOf(b), parts, o.rows, Sure(br), e, j) ==> Must(o, k, b, brT, e, j)) &&
    (Can(o, k, b, brT, e, j) ==> PartKept(k, FormOf(b), parts, o.rows, Maybe(br), e, j))
  }

  /**
   The interval is sound exactly when, part by part, the tool says "kept for certain" only of parts that every
   consistent world keeps and "gone for certain" only of parts that none does. Both are comparisons of recorded numbers;
   br are the brackets of all rows, brT those of the trusted ones.
   */
  lemma {:induction false} IntervalIsSoundIff(o: Observation, k: real, b: Bias, parts: Parts, br: Brackets,
      brT: Brackets, w: World)
    requires Observed(o) && PartsOf(o, parts) && k > 0.0
    requires BracketsOf(TrustedRows(o), brT) && Consistent(o, w)
    ensures Sound(o, k, b, parts, br) <==>
      forall e: Eye, j: nat :: j < |o.keys| ==> LeavesRoom(o, k, b, parts, br, brT, e, j)
  {
    hide Consistent, PartsOf, PartKept, Must, Can, StillPasses;
    if forall e: Eye, j: nat :: j < |o.keys| ==> LeavesRoom(o, k, b, parts, br, brT, e, j) {
      forall v: World | Consistent(o, v)
        ensures Spans(o, k, b, parts, br, v)
      {
        RoomSpans(o, k, b, parts, br, brT, v);
      }
    }
    if Sound(o, k, b, parts, br) {
      forall e: Eye, j: nat | j < |o.keys|
        ensures LeavesRoom(o, k, b, parts, br, brT, e, j)
      {
        SoundLeavesRoom(o, k, b, parts, br, brT, w, e, j);
      }
    }
  }

  lemma KeysOf(o: Observation, parts: Parts)
    requires Observed(o) && PartsOf(o, parts)
    ensures parts.keys == o.keys && ValidParts(parts, o.rows)
  {
  }

  lemma {:induction false} RoomSpans(o: Observation, k: real, b: Bias, parts: Parts, br: Brackets, brT: Brackets,
      w: World)
    requires Observed(o) && PartsOf(o, parts) && BracketsOf(TrustedRows(o), brT) && Consistent(o, w)
    requires forall e: Eye, j: nat :: j < |o.keys| ==> LeavesRoom(o, k, b, parts, br, brT, e, j)
    ensures Spans(o, k, b, parts, br, w)
  {
    hide Consistent, PartsOf, PartKept, Must, Can, StillPasses;
    KeysOf(o, parts);
    forall e: Eye, j: nat | j < |o.keys|
      ensures PartKept(k, FormOf(b), parts, o.rows, Sure(br), e, j) ==> StillPasses(o, k, b, w, e, j)
      ensures StillPasses(o, k, b, w, e, j) ==> PartKept(k, FormOf(b), parts, o.rows, Maybe(br), e, j)
    {
      assert LeavesRoom(o, k, b, parts, br, brT, e, j);
      TruthInRange(o, k, b, w, brT, e, j);
    }
  }

  lemma {:induction false} SoundLeavesRoom(o: Observation, k: real, b: Bias, parts: Parts, br: Brackets, brT: Brackets,
      w: World, e: Eye, j: nat)
    requires Observed(o) && PartsOf(o, parts) && k > 0.0 && j < |o.keys|
    requires BracketsOf(TrustedRows(o), brT) && Consistent(o, w) && Sound(o, k, b, parts, br)
    ensures LeavesRoom(o, k, b, parts, br, brT, e, j)
  {
    hide Consistent, PartsOf, PartKept, Must, Can, StillPasses;
    KeysOf(o, parts);
    if !Must(o, k, b, brT, e, j) {
      var v := MustIsReached(o, k, b, w, brT, e, j);
      assert Spans(o, k, b, parts, br, v) && !TrulyKept(o, k, b, v)[e][j];
      assert !KeptUnder(k, FormOf(b), parts, o.rows, Sure(br))[e][j];
    }
    if Can(o, k, b, brT, e, j) {
      var v := CanIsReached(o, k, b, w, brT, e, j);
      assert Spans(o, k, b, parts, br, v) && TrulyKept(o, k, b, v)[e][j];
      assert KeptUnder(k, FormOf(b), parts, o.rows, Maybe(br))[e][j];
    }
  }

  // ---------------------------------------------------------------- in numbers of draws

  /** The truth lies between the printed ends. */
  ghost predicate Contains(o: Observation, k: real, b: Bias, parts: Parts, br: Brackets, w: World, claims: Claims,
      draws: seq<EyeDraw>)
    requires Observed(o) && PartsOf(o, parts) && ClaimsIn(claims, |o.keys|)
  {
    RemovedUnder(k, FormOf(b), parts, o.rows, claims, draws, Maybe(br)) <= TrulyRemoved(o, k, b, w, claims, draws) <=
    RemovedUnder(k, FormOf(b), parts, o.rows, claims, draws, Sure(br))
  }

  /** A sound interval contains the number of draws removed, whatever is drawn and claimed, and no other does. */
  lemma {:induction false} SoundIffContains(o: Observation, k: real, b: Bias, parts: Parts, br: Brackets)
    requires Observed(o) && PartsOf(o, parts)
    ensures Sound(o, k, b, parts, br) <==>
      forall w: World, claims: Claims, draws: seq<EyeDraw> :: Consistent(o, w) && ClaimsIn(claims, |o.keys|) ==>
        Contains(o, k, b, parts, br, w, claims, draws)
  {
    hide Consistent, PartsOf, TrulyKept, KeptUnder, DrawsRemoved, ClaimsIn;
    if Sound(o, k, b, parts, br) {
      forall w: World, claims: Claims, draws: seq<EyeDraw> | Consistent(o, w) && ClaimsIn(claims, |o.keys|)
        ensures Contains(o, k, b, parts, br, w, claims, draws)
      {
        assert Spans(o, k, b, parts, br, w);
        SpansContains(o, k, b, parts, br, w, claims, draws);
      }
    }
    if forall w: World, claims: Claims, draws: seq<EyeDraw> :: Consistent(o, w) && ClaimsIn(claims, |o.keys|) ==>
        Contains(o, k, b, parts, br, w, claims, draws) {
      forall w: World | Consistent(o, w)
        ensures Spans(o, k, b, parts, br, w)
      {
        ContainsSpans(o, k, b, parts, br, w);
      }
    }
  }

  lemma {:induction false} SpansContains(o: Observation, k: real, b: Bias, parts: Parts, br: Brackets, w: World,
      claims: Claims, draws: seq<EyeDraw>)
    requires Observed(o) && PartsOf(o, parts) && ClaimsIn(claims, |o.keys|) && Spans(o, k, b, parts, br, w)
    ensures Contains(o, k, b, parts, br, w, claims, draws)
  {
    hide StillPasses, PartKept;
    KeysOf(o, parts);
    var sure, maybe :=
      KeptUnder(k, FormOf(b), parts, o.rows, Sure(br)), KeptUnder(k, FormOf(b), parts, o.rows, Maybe(br));
    JoinIsAntitone(sure, TrulyKept(o, k, b, w), claims, draws);
    JoinIsAntitone(TrulyKept(o, k, b, w), maybe, claims, draws);
  }

  /** One part that claims a slot of its own, drawn alone, tells its flag. */
  lemma {:induction false} OneDraw(kept: map<Eye, seq<bool>>, e: Eye, j: nat, n: nat)
    requires (forall x: Eye :: x in kept && |kept[x]| == n) && j < n
    ensures ClaimsIn(map[0 := [j]], n)
    ensures CountTrue(DrawsRemoved(kept, map[0 := [j]], [(e, [0])])) == if kept[e][j] then 0 else 1
  {
    var claims: Claims, draws := map[0 := [j]], [(e, [0])];
    assert claims[0][0] == j && draws[0].1[0] == 0;
    assert SlotGone(kept, claims, e, 0) <==> !kept[e][j];
    assert DrawRemoved(kept, claims, draws[0]) <==> SlotGone(kept, claims, e, 0);
    assert DrawsRemoved(kept, claims, draws) == [!kept[e][j]];
  }

  lemma {:induction false} ContainsSpans(o: Observation, k: real, b: Bias, parts: Parts, br: Brackets, w: World)
    requires Observed(o) && PartsOf(o, parts)
    requires forall claims: Claims, draws: seq<EyeDraw> :: ClaimsIn(claims, |o.keys|) ==>
      Contains(o, k, b, parts, br, w, claims, draws)
    ensures Spans(o, k, b, parts, br, w)
  {
    hide StillPasses, PartKept, DrawsRemoved;
    KeysOf(o, parts);
    var sure, maybe :=
      KeptUnder(k, FormOf(b), parts, o.rows, Sure(br)), KeptUnder(k, FormOf(b), parts, o.rows, Maybe(br));
    var truly := TrulyKept(o, k, b, w);
    forall e: Eye, j: nat | j < |o.keys|
      ensures (sure[e][j] ==> truly[e][j]) && (truly[e][j] ==> maybe[e][j])
    {
      OneDraw(sure, e, j, |o.keys|);
      OneDraw(truly, e, j, |o.keys|);
      OneDraw(maybe, e, j, |o.keys|);
      assert Contains(o, k, b, parts, br, w, map[0 := [j]], [(e, [0])]);
    }
  }

  // ---------------------------------------------------------------- conditions a reader of the file can check

  /** The tool's biased distance of a row is the engine's. */
  predicate Agrees(k: real, b: Bias, r: Row) { b in {PixelSize, WholeDistance} || k == 1.0 || r.B == 0.0 }

  lemma AgreesIsExact(k: real, b: Bias, r: Row, p: G.Part)
    requires Rerun(r, p) && Agrees(k, b, r) && !b.PixelSize?
    ensures BiasedDistance(k, b, Recorded(r, 0.0)) == Scaled(k, r.f)
  {
    ScaledDistanceIsExactIff(k, r.A, r.d, r.R, r.s, r.B);
    ContextDistanceIsExactIff(k, r.A, r.d, r.R, r.s, r.B);
  }

  predicate SameVerdict(x: real, y: real, t0: real) { x <= t0 <==> y <= t0 }

  /** And where it does not, some t0 tells them apart. */
  lemma AgreesIff(k: real, b: Bias, r: Row, p: G.Part)
    requires Rerun(r, p) && !b.PixelSize?
    ensures Agrees(k, b, r) <==>
      forall t0: real :: SameVerdict(Scaled(k, r.f), BiasedDistance(k, b, Recorded(r, 0.0)), t0)
  {
    ScaledDistanceIsExactIff(k, r.A, r.d, r.R, r.s, r.B);
    ContextDistanceIsExactIff(k, r.A, r.d, r.R, r.s, r.B);
    var x, y := Scaled(k, r.f), BiasedDistance(k, b, Recorded(r, 0.0));
    if forall t0: real :: SameVerdict(x, y, t0) {
      assert SameVerdict(x, y, x) && SameVerdict(x, y, y);
    }
  }

  /** The brackets look at trusted rows only. */
  ghost predicate CleanBrackets(o: Observation)
    requires |o.rows| == |o.parts|
  {
    forall i: nat :: i < |o.rows| && (PassRow(o.rows[i]) || RejectRow(o.rows[i])) ==> Trusted(o, i)
  }

  lemma {:induction false} CleanBracketsAreTrusted(o: Observation, br: Brackets)
    requires |o.rows| == |o.parts| && CleanBrackets(o)
    ensures BracketsOf(o.rows, br) <==> BracketsOf(TrustedRows(o), br)
  {
    hide Trusted;
    var rows := TrustedRows(o);
    assert forall i: nat :: i < |o.rows| ==>
      (PassRow(rows[i]) <==> PassRow(o.rows[i])) && (RejectRow(rows[i]) <==> RejectRow(o.rows[i])) by {
      forall i: nat | i < |o.rows|
        ensures (PassRow(rows[i]) <==> PassRow(o.rows[i])) && (RejectRow(rows[i]) <==> RejectRow(o.rows[i]))
      {
        if Trusted(o, i) {
          TrustedIsOk(o, i);
        }
      }
    }
    if BracketsOf(o.rows, br) {
      SameBrackets(o.rows, rows, br);
    }
    if BracketsOf(rows, br) {
      SameBrackets(rows, o.rows, br);
    }
  }

  lemma TrustedIsOk(o: Observation, i: nat)
    requires i < |o.rows| == |o.parts| && Trusted(o, i)
    ensures o.rows[i].ok
  {
  }

  lemma {:induction false} SameBrackets(a: seq<Row>, b: seq<Row>, br: Brackets)
    requires |a| == |b| && BracketsOf(a, br)
    requires forall i: nat :: i < |a| ==> a[i].model == b[i].model && a[i].f == b[i].f
    requires forall i: nat :: i < |a| ==> (PassRow(a[i]) <==> PassRow(b[i])) && (RejectRow(a[i]) <==> RejectRow(b[i]))
    ensures BracketsOf(b, br)
  {
    hide PassRow, RejectRow;
  }

  /** On a trusted row that agrees, the tool's test and the engine's have the same ends. */
  lemma {:induction false} RowAgrees(o: Observation, k: real, b: Bias, w: World, br: Brackets, i: nat)
    requires Observed(o) && Consistent(o, w) && BracketsOf(TrustedRows(o), br)
    requires i < |o.rows| && Trusted(o, i) && o.rows[i].passed && Agrees(k, b, o.rows[i])
    ensures RowKept(k, FormOf(b), o.rows[i], Sure(br)) ==> MustStand(k, b, o.rows[i], br)
    ensures RowKept(k, FormOf(b), o.rows[i], Maybe(br)) <==> CanStand(k, b, o.rows[i], br)
  {
    hide Trusted, Consistent, LodDistance, Threshold;
    var r := o.rows[i];
    assert Rerun(r, o.parts[i]);
    InsideOf(o, w, i);
    if b.PixelSize? {
      AdmittedInRange(o, w, br, i);
    } else {
      AgreesIsExact(k, b, r, o.parts[i]);
    }
  }

  /** The row's own distance lies within its range. */
  lemma {:induction false} AdmittedInRange(o: Observation, w: World, br: Brackets, i: nat)
    requires Observed(o) && Consistent(o, w) && BracketsOf(TrustedRows(o), br)
    requires i < |o.rows| && Trusted(o, i) && o.rows[i].passed
    ensures o.rows[i].f <= Low(o.rows[i], br) && Reaches(o.rows[i], br, o.rows[i].f)
  {
    hide Trusted;
    InsideOf(o, w, i);
    ThresholdInRange(o, w, br, i);
    assert o.rows[i].model != 0 ==> PassRow(TrustedRows(o)[i]);
  }

  /** Every trusted row an admitted part passed agrees. */
  ghost predicate AllAgree(o: Observation, k: real, b: Bias)
    requires Observed(o)
  {
    forall e: Eye, j: nat, i: nat :: j < |o.keys| && Admits(o, e, j, i) && Trusted(o, i) ==> Agrees(k, b, o.rows[i])
  }

  /** No row the part passed in the eye went uncounted. */
  ghost predicate Counted(o: Observation, e: Eye, j: nat)
    requires Observed(o) && j < |o.keys|
  {
    forall i: nat :: Admits(o, e, j, i) ==> Trusted(o, i)
  }

  lemma KeptPassed(k: real, form: Form, r: Row, reading: Reading)
    requires RowKept(k, form, r, reading)
    ensures r.passed
  {
  }

  /** The tool's flags of a part, in terms of its rows. */
  lemma {:induction false} FlagIsFromRows(o: Observation, k: real, form: Form, parts: Parts, reading: Reading, e: Eye,
      j: nat)
    requires Observed(o) && PartsOf(o, parts) && j < |o.keys|
    ensures PartKept(k, form, parts, o.rows, reading, e, j) <==>
      exists i: nat :: Admits(o, e, j, i) && Trusted(o, i) && RowKept(k, form, o.rows[i], reading)
  {
    hide Trusted, TestsIn, RowKept, Rerun;
    var mine := RowsOf(parts, j, e);
    assert CountedRight(o, parts, e, j);
    if i: nat :| Admits(o, e, j, i) && Trusted(o, i) && RowKept(k, form, o.rows[i], reading) {
      assert i in mine;
    }
    if PartKept(k, form, parts, o.rows, reading, e, j) {
      var n :| 0 <= n < |mine| && RowKept(k, form, o.rows[mine[n]], reading);
      assert mine[n] in mine;
      KeptPassed(k, form, o.rows[mine[n]], reading);
      assert Admits(o, e, j, mine[n]);
    }
  }

  /**
   Where the brackets are clean and the distances agree, the interval is sound exactly when every part is kept possibly
   or has all the rows it passed counted.
   */
  lemma {:induction false} ExactBiasIsSoundIff(o: Observation, k: real, b: Bias, parts: Parts, br: Brackets, w: World)
    requires Observed(o) && PartsOf(o, parts) && k > 0.0 && CleanBrackets(o) && AllAgree(o, k, b)
    requires BracketsOf(o.rows, br) && Consistent(o, w)
    ensures Sound(o, k, b, parts, br) <==>
      forall e: Eye, j: nat :: j < |o.keys| ==>
        PartKept(k, FormOf(b), parts, o.rows, Maybe(br), e, j) || Counted(o, e, j)
  {
    hide Sound, Consistent, PartsOf, PartKept, TrustedRows, LeavesRoom, CleanBrackets, BracketsOf, Counted, AllAgree;
    KeysOf(o, parts);
    CleanBracketsAreTrusted(o, br);
    IntervalIsSoundIff(o, k, b, parts, br, br, w);
    forall e: Eye, j: nat | j < |o.keys|
      ensures LeavesRoom(o, k, b, parts, br, br, e, j) <==>
        PartKept(k, FormOf(b), parts, o.rows, Maybe(br), e, j) || Counted(o, e, j)
    {
      RoomIff(o, k, b, parts, br, w, e, j);
    }
  }

  lemma {:induction false} RoomIff(o: Observation, k: real, b: Bias, parts: Parts, br: Brackets, w: World, e: Eye,
      j: nat)
    requires Observed(o) && PartsOf(o, parts) && AllAgree(o, k, b) && j < |o.keys|
    requires BracketsOf(TrustedRows(o), br) && Consistent(o, w)
    ensures LeavesRoom(o, k, b, parts, br, br, e, j) <==>
      PartKept(k, FormOf(b), parts, o.rows, Maybe(br), e, j) || Counted(o, e, j)
  {
    hide Consistent, PartsOf, PartKept, Trusted, TestsIn, RowKept, MustStand, CanStand, Agrees, BracketsOf, Harmless;
    FlagIsFromRows(o, k, FormOf(b), parts, Sure(br), e, j);
    FlagIsFromRows(o, k, FormOf(b), parts, Maybe(br), e, j);
    forall i: nat | Admits(o, e, j, i) && Trusted(o, i)
      ensures RowKept(k, FormOf(b), o.rows[i], Sure(br)) ==> MustStand(k, b, o.rows[i], br)
      ensures RowKept(k, FormOf(b), o.rows[i], Maybe(br)) <==> CanStand(k, b, o.rows[i], br)
    {
      RowAgrees(o, k, b, w, br, i);
    }
  }

  // ---------------------------------------------------------------- no bias

  /** Some row the part passed in the eye was counted. */
  ghost predicate Seen(o: Observation, e: Eye, j: nat)
    requires Observed(o) && j < |o.keys|
  {
    exists i: nat :: Admits(o, e, j, i) && Trusted(o, i)
  }

  /** And its t0 is bounded from below, or not looked at. */
  ghost predicate Bounded(o: Observation, b: Bias, e: Eye, j: nat)
    requires Observed(o) && j < |o.keys|
  {
    exists i: nat :: Admits(o, e, j, i) && Trusted(o, i) &&
      (b.PixelSize? || Tabled(o.rows[i]) || o.rows[i].model != 0)
  }

  lemma {:induction false} RowAtOne(o: Observation, b: Bias, w: World, br: Brackets, i: nat)
    requires Observed(o) && Consistent(o, w) && BracketsOf(TrustedRows(o), br)
    requires i < |o.rows| && Trusted(o, i) && o.rows[i].passed
    ensures RowKept(1.0, FormOf(b), o.rows[i], Maybe(br))
    ensures RowKept(1.0, FormOf(b), o.rows[i], Sure(br)) <==>
      b.PixelSize? || Tabled(o.rows[i]) || o.rows[i].model != 0
  {
    hide Trusted, Consistent, Threshold;
    var r := o.rows[i];
    assert Rerun(r, o.parts[i]);
    InsideOf(o, w, i);
    AdmittedInRange(o, w, br, i);
    assert r.model != 0 ==> PassRow(TrustedRows(o)[i]);
    if r.model in br.lo {
      LoIsBelow(TrustedRows(o), w.t0, br, r.model) by {
        assert Explains(TrustedRows(o), w.t0) by {
          ExplainsOf(o, w);
        }
      }
    }
  }

  lemma ExplainsOf(o: Observation, w: World)
    requires |o.rows| == |o.parts| && Consistent(o, w)
    ensures Explains(TrustedRows(o), w.t0)
  {
  }

  lemma {:induction false} FlagAtOne(o: Observation, b: Bias, parts: Parts, br: Brackets, w: World, e: Eye, j: nat)
    requires Observed(o) && PartsOf(o, parts) && Consistent(o, w) && BracketsOf(TrustedRows(o), br) && j < |o.keys|
    ensures PartKept(1.0, FormOf(b), parts, o.rows, Maybe(br), e, j) <==> Seen(o, e, j)
    ensures PartKept(1.0, FormOf(b), parts, o.rows, Sure(br), e, j) <==> Bounded(o, b, e, j)
  {
    hide Consistent, PartsOf, PartKept, Trusted, TestsIn, RowKept, BracketsOf, Tabled;
    FlagIsFromRows(o, 1.0, FormOf(b), parts, Sure(br), e, j);
    FlagIsFromRows(o, 1.0, FormOf(b), parts, Maybe(br), e, j);
    forall i: nat | Admits(o, e, j, i) && Trusted(o, i)
      ensures RowKept(1.0, FormOf(b), o.rows[i], Maybe(br))
      ensures RowKept(1.0, FormOf(b), o.rows[i], Sure(br)) <==>
        b.PixelSize? || Tabled(o.rows[i]) || o.rows[i].model != 0
    {
      RowAtOne(o, b, w, br, i);
    }
  }

  lemma AdmittedIff(o: Observation, parts: Parts, e: Eye, j: nat)
    requires Observed(o) && PartsOf(o, parts) && j < |o.keys|
    ensures |parts.admitted[e]| == |o.keys| && (parts.admitted[e][j] <==> exists i: nat :: Admits(o, e, j, i))
  {
    hide Admits, CountedRight;
    assert AdmittedRight(o, parts, e, j);
  }

  /** Without a bias the interval is sound exactly when every part admitted has a counted row that it passed. */
  lemma {:induction false} BiasOneIsSoundIff(o: Observation, b: Bias, parts: Parts, br: Brackets, w: World)
    requires Observed(o) && PartsOf(o, parts) && CleanBrackets(o) && BracketsOf(o.rows, br) && Consistent(o, w)
    ensures Sound(o, 1.0, b, parts, br) <==>
      forall e: Eye, j: nat :: j < |o.keys| && parts.admitted[e][j] ==> Seen(o, e, j)
  {
    hide Sound, Consistent, PartsOf, PartKept, TrustedRows, CleanBrackets, BracketsOf, Admits, Trusted;
    KeysOf(o, parts);
    CleanBracketsAreTrusted(o, br);
    ExactBiasIsSoundIff(o, 1.0, b, parts, br, w);
    forall e: Eye, j: nat | j < |o.keys|
      ensures PartKept(1.0, FormOf(b), parts, o.rows, Maybe(br), e, j) || Counted(o, e, j) <==>
        (parts.admitted[e][j] ==> Seen(o, e, j))
    {
      FlagAtOne(o, b, parts, br, w, e, j);
      AdmittedIff(o, parts, e, j);
    }
  }

  /**
   Without a bias the lower end keeps exactly the parts admitted, and so removes no draw that the engine's own verdicts
   do not, exactly when each has a counted row that it passed; the upper end exactly when one of those is bounded.
   */
  lemma {:induction false} NothingIsRemovedAtOneIff(o: Observation, b: Bias, parts: Parts, br: Brackets, w: World)
    requires Observed(o) && PartsOf(o, parts) && CleanBrackets(o) && BracketsOf(o.rows, br) && Consistent(o, w)
    ensures KeptUnder(1.0, FormOf(b), parts, o.rows, Maybe(br)) == Admission(parts) <==>
      forall e: Eye, j: nat :: j < |o.keys| && parts.admitted[e][j] ==> Seen(o, e, j)
    ensures KeptUnder(1.0, FormOf(b), parts, o.rows, Sure(br)) == Admission(parts) <==>
      forall e: Eye, j: nat :: j < |o.keys| && parts.admitted[e][j] ==> Bounded(o, b, e, j)
  {
    hide Consistent, PartsOf, PartKept, TrustedRows, CleanBrackets, BracketsOf, Admits, Trusted, Tabled;
    KeysOf(o, parts);
    CleanBracketsAreTrusted(o, br);
    var maybe, sure :=
      KeptUnder(1.0, FormOf(b), parts, o.rows, Maybe(br)), KeptUnder(1.0, FormOf(b), parts, o.rows, Sure(br));
    forall e: Eye, j: nat | j < |o.keys|
      ensures maybe[e][j] == parts.admitted[e][j] <==> (parts.admitted[e][j] ==> Seen(o, e, j))
      ensures sure[e][j] == parts.admitted[e][j] <==> (parts.admitted[e][j] ==> Bounded(o, b, e, j))
    {
      FlagAtOne(o, b, parts, br, w, e, j);
      AdmittedIff(o, parts, e, j);
    }
    SameFlags(maybe, parts, |o.keys|);
    SameFlags(sure, parts, |o.keys|);
  }

  /** What the engine admitted, for the two eyes. */
  function Admission(parts: Parts): map<Eye, seq<bool>>
    requires forall e: Eye :: e in parts.admitted
  {
    map e: Eye :: parts.admitted[e]
  }

  lemma {:induction false} SameFlags(kept: map<Eye, seq<bool>>, parts: Parts, n: nat)
    requires forall e: Eye :: e in kept && e in parts.admitted && |kept[e]| == |parts.admitted[e]| == n
    ensures kept == Admission(parts) <==> forall e: Eye, j: nat :: j < n ==> kept[e][j] == parts.admitted[e][j]
  {
    if forall e: Eye, j: nat :: j < n ==> kept[e][j] == parts.admitted[e][j] {
      forall e: Eye
        ensures kept[e] == parts.admitted[e]
      {
      }
      assert kept.Keys == Admission(parts).Keys;
    }
  }

  // ---------------------------------------------------------------- the rows that were rejected

  lemma ProductShrinks(k: real, x: real)
    requires k >= 1.0 && x >= 0.0
    ensures x <= k * x
  {
    NotNegative(k - 1.0, x);
    assert (k - 1.0) * x == k * x - x;
  }

  /**
   Leaving out the rows that were rejected is right for a bias of one or more, where the distances are not negative.
   */
  lemma {:induction false} RejectedStaysRejected(k: real, b: Bias, x: Terms)
    requires k >= 1.0 && x.A >= 0.0 && x.d >= 0.0
    requires x.A * (x.d - x.R) * x.s >= 0.0 && LodDistance(x.A, x.d, x.R, x.s, x.B) >= 0.0
    ensures EnginePasses(k, b, x) ==> EngineAdmits(x)
  {
    hide LodDistance, BiasedDistance;
    NotNegative(x.A, x.d);
    ProductShrinks(k, x.A * x.d);
    assert k * x.A * x.d == k * (x.A * x.d) by {
      Associative(k, x.A, x.d);
    }
    DistanceGrows(k, b, x);
  }

  lemma {:induction false} DistanceGrows(k: real, b: Bias, x: Terms)
    requires k >= 1.0
    requires x.A * (x.d - x.R) * x.s >= 0.0 && LodDistance(x.A, x.d, x.R, x.s, x.B) >= 0.0
    ensures LodDistance(x.A, x.d, x.R, x.s, x.B) <= BiasedDistance(k, b, x)
  {
    var y := x.d - x.R;
    var l := x.A * y * x.s;
    assert LodDistance(x.A, x.d, x.R, x.s, x.B) == l + x.B;
    ProductShrinks(k, l);
    FactorsMove(k, x.A, y, x.s);
    match b
    case PixelSize =>
    case ViewScale => assert BiasedDistance(k, b, x) == k * l + x.B;
    case WholeDistance => ProductShrinks(k, LodDistance(x.A, x.d, x.R, x.s, x.B));
    case ContextScale => assert BiasedDistance(k, b, x) == k * l + x.B;
  }

  lemma FactorsMove(k: real, a: real, y: real, c: real)
    ensures (k * a) * y * c == k * (a * y * c) && a * y * (k * c) == k * (a * y * c)
  {
    Associative(k, a, y);
    Associative(k, a * y, c);
    Associative(a * y, k, c);
    assert (a * y) * k == k * (a * y);
  }

  /** It is not below one, nor where the camera lies within the sphere: these were rejected, and pass. */
  lemma RejectedCanPass()
    ensures var x := Terms(1.0, 1.0, 0.0, 0.25, 1.0, true, 1.0);
      !EngineAdmits(x) && EnginePasses(0.5, PixelSize, x) && EnginePasses(0.5, ViewScale, x)
    ensures var x := Terms(1.0, 0.0, 0.0, 1.0, 1.0, true, -2.0);
      !EngineAdmits(x) && EnginePasses(2.0, WholeDistance, x) && EnginePasses(2.0, ContextScale, x)
  {
  }

  /** Then the parts that still pass are those that pass at all. */
  lemma {:induction false} StillPassesIsPasses(o: Observation, k: real, b: Bias, w: World, e: Eye, j: nat)
    requires Observed(o) && Consistent(o, w) && j < |o.keys| && k >= 1.0
    requires forall i: nat :: i < |o.rows| && TestsIn(o, e, j, i) ==> Ordinary(TermsOf(o, w, i))
    ensures StillPasses(o, k, b, w, e, j) <==>
      exists i: nat :: i < |o.rows| && TestsIn(o, e, j, i) && EnginePasses(k, b, TermsOf(o, w, i))
  {
    hide TestsIn, TermsOf, EnginePasses, EngineAdmits;
    if i: nat :| i < |o.rows| && TestsIn(o, e, j, i) && EnginePasses(k, b, TermsOf(o, w, i)) {
      RejectedStaysRejected(k, b, TermsOf(o, w, i));
      assert Accounts(o, w, i);
      assert Admits(o, e, j, i);
    }
  }

  predicate Ordinary(x: Terms) {
    x.A >= 0.0 && x.d >= 0.0 && x.A * (x.d - x.R) * x.s >= 0.0 && LodDistance(x.A, x.d, x.R, x.s, x.B) >= 0.0
  }

  // ---------------------------------------------------------------- the estimate as the tool makes it

  function EyeOf(o: Observation, view: nat): Option<Eye> {
    if view == o.viewB then Some(EyeB) else if view == o.viewA then Some(EyeA) else None
  }

  /** The rows gathered so far, per part and eye. */
  ghost predicate Gathered(o: Observation, n: nat, rowsOf: map<(PartKey, Eye), seq<nat>>)
    requires Observed(o) && n <= |o.rows|
  {
    forall key: PartKey, e: Eye, i: nat :: key in o.keys ==>
      ((key, e) in rowsOf && i in rowsOf[(key, e)] <==> i < n && Counts(o, key, e, i))
  }

  /** Row i counts for a part in an eye. */
  predicate Counts(o: Observation, key: PartKey, e: Eye, i: nat)
    requires i < |o.rows| == |o.parts| && G.PartInRange(o.parts[i], |o.builders|)
  {
    Trusted(o, i) && P.Tests(o.builders, o.parts, o.frame, key, ViewOf(o, e), i)
  }

  lemma {:induction false} CountsIff(o: Observation, key: PartKey, e: Eye, i: nat)
    requires Observed(o) && i < |o.rows|
    ensures Counts(o, key, e, i) <==>
      o.parts[i].frame == o.frame && EyeOf(o, o.parts[i].view) == Some(e) && Trusted(o, i) &&
      P.KeyOf(o.builders, o.parts[i]) == key
  {
  }

  lemma {:induction false} GatheredStep(o: Observation, n: nat, rowsOf: map<(PartKey, Eye), seq<nat>>, key: PartKey,
      e: Eye)
    requires Observed(o) && n < |o.rows| && Gathered(o, n, rowsOf) && key in o.keys
    requires forall k: PartKey, x: Eye :: Counts(o, k, x, n) <==> k == key && x == e
    ensures var mine := if (key, e) in rowsOf then rowsOf[(key, e)] else [];
      Gathered(o, n + 1, rowsOf[(key, e) := mine + [n]])
  {
    hide Counts;
    var mine := if (key, e) in rowsOf then rowsOf[(key, e)] else [];
    var after := rowsOf[(key, e) := mine + [n]];
    forall k: PartKey, x: Eye, i: nat | k in o.keys
      ensures (k, x) in after && i in after[(k, x)] <==> i < n + 1 && Counts(o, k, x, i)
    {
      assert (k, x) in rowsOf && i in rowsOf[(k, x)] <==> i < n && Counts(o, k, x, i);
    }
  }

  lemma {:induction false} GatheredSkip(o: Observation, n: nat, rowsOf: map<(PartKey, Eye), seq<nat>>)
    requires Observed(o) && n < |o.rows| && Gathered(o, n, rowsOf)
    requires forall k: PartKey, x: Eye :: k in o.keys ==> !Counts(o, k, x, n)
    ensures Gathered(o, n + 1, rowsOf)
  {
    hide Counts;
  }

  /** The rows that count, under their part and eye. */
  method GatherRows(o: Observation) returns (rowsOf: map<(PartKey, Eye), seq<nat>>)
    requires Observed(o)
    ensures Gathered(o, |o.rows|, rowsOf)
    ensures forall p :: p in rowsOf ==> forall i: nat :: i < |rowsOf[p]| ==> rowsOf[p][i] < |o.rows|
  {
    rowsOf := map[];
    hide Gathered, Trusted, Counts, P.Excluded;
    assert Gathered(o, 0, rowsOf) by {
      NoneGathered(o);
    }
    for n := 0 to |o.rows|
      invariant Gathered(o, n, rowsOf)
      invariant forall p :: p in rowsOf ==> forall i: nat :: i < |rowsOf[p]| ==> rowsOf[p][i] < n
    {
      var p := o.parts[n];
      var e := EyeOf(o, p.view);
      if p.frame == o.frame && e.Some? && Trusted(o, n) {
        TrustedHasKey(o, n);
        var key := P.KeyOf(o.builders, p);
        if key in o.keys {
          forall k: PartKey, x: Eye
            ensures Counts(o, k, x, n) <==> k == key && x == e.value
          {
            CountsIff(o, k, x, n);
          }
          GatheredStep(o, n, rowsOf, key, e.value);
          var mine := if (key, e.value) in rowsOf then rowsOf[(key, e.value)] else [];
          rowsOf := rowsOf[(key, e.value) := mine + [n]];
          continue;
        }
      }
      forall k: PartKey, x: Eye | k in o.keys
        ensures !Counts(o, k, x, n)
      {
        CountsIff(o, k, x, n);
      }
      GatheredSkip(o, n, rowsOf);
    }
  }

  lemma NoneGathered(o: Observation)
    requires Observed(o)
    ensures Gathered(o, 0, map[])
  {
  }

  lemma TrustedHasKey(o: Observation, i: nat)
    requires Observed(o) && i < |o.rows| && Trusted(o, i)
    ensures !P.Excluded(o.parts[i]) && G.PartInRange(o.parts[i], |o.builders|)
  {
  }

  /** Which of the parts the engine admitted in a view. */
  function AdmittedIn(views: P.Views, keys: seq<PartKey>, view: nat): (flags: seq<bool>)
    ensures |flags| == |keys|
    ensures forall j: nat :: j < |keys| ==> flags[j] == P.VerdictOf(views, keys[j], view, false).Admitted?
  {
    seq(|keys|, j requires 0 <= j < |keys| => P.VerdictOf(views, keys[j], view, false).Admitted?)
  }

  /** The parts with their admission and their rows. */
  method GatherParts(o: Observation) returns (parts: Parts)
    requires Observed(o)
    ensures PartsOf(o, parts)
  {
    hide Trusted, P.Excluded, PartsOf;
    var views, _ := P.PartViews(o.builders, o.parts, o.frame);
    var rowsOf := GatherRows(o);
    parts := Parts(o.keys, rowsOf,
      map[EyeA := AdmittedIn(views, o.keys, o.viewA), EyeB := AdmittedIn(views, o.keys, o.viewB)]);
    forall e: Eye
      ensures e in parts.admitted && parts.admitted[e] == AdmittedIn(views, o.keys, ViewOf(o, e))
    {
      assert e.EyeA? || e.EyeB?;
    }
    Assembled(o, views, parts);
  }

  lemma {:induction false} Assembled(o: Observation, views: P.Views, parts: Parts)
    requires Observed(o) && P.ViewsOf(o.builders, o.parts, o.frame, views) && Gathered(o, |o.rows|, parts.rowsOf)
    requires parts.keys == o.keys && ValidParts(parts, o.rows)
    requires forall e: Eye :: e in parts.admitted && parts.admitted[e] == AdmittedIn(views, o.keys, ViewOf(o, e))
    ensures PartsOf(o, parts)
  {
    hide Trusted, P.Excluded, P.ViewsOf, Gathered, Admits, TestsIn, RowsOf;
    forall e: Eye, j: nat | j < |o.keys|
      ensures AdmittedRight(o, parts, e, j) && CountedRight(o, parts, e, j)
    {
      AdmissionIsFromRows(o, views, e, j);
      forall i: nat
        ensures i in RowsOf(parts, j, e) <==> i < |o.rows| && TestsIn(o, e, j, i) && Trusted(o, i)
      {
        RowsAreGathered(o, parts, e, j, i);
      }
    }
  }

  lemma {:induction false} RowsAreGathered(o: Observation, parts: Parts, e: Eye, j: nat, i: nat)
    requires Observed(o) && parts.keys == o.keys && Gathered(o, |o.rows|, parts.rowsOf) && j < |o.keys|
    ensures i in RowsOf(parts, j, e) <==> i < |o.rows| && TestsIn(o, e, j, i) && Trusted(o, i)
  {
    hide Trusted;
    var key := o.keys[j];
    assert key in o.keys;
    assert (key, e) in parts.rowsOf && i in parts.rowsOf[(key, e)] <==> i < |o.rows| && Counts(o, key, e, i);
  }

  lemma {:induction false} AdmissionIsFromRows(o: Observation, views: P.Views, e: Eye, j: nat)
    requires Observed(o) && P.ViewsOf(o.builders, o.parts, o.frame, views) && j < |o.keys|
    ensures P.VerdictOf(views, o.keys[j], ViewOf(o, e), false).Admitted? <==> exists i: nat :: Admits(o, e, j, i)
  {
    hide P.Excluded, P.VerdictOf, P.ViewsOf;
    P.VerdictIsFromTheRows(o.builders, o.parts, o.frame, views, o.keys[j], ViewOf(o, e), false);
    forall i: nat | i < |o.rows|
      ensures Admits(o, e, j, i) <==>
        P.Tests(o.builders, o.parts, o.frame, o.keys[j], ViewOf(o, e), i) && o.parts[i].passed != 0
    {
      assert Rerun(o.rows[i], o.parts[i]);
    }
  }

  /** The interval printed for a bias: where it is sound, what the bias truly removes lies in it. */
  method Estimate(o: Observation, k: real, b: Bias, claims: Claims, draws: seq<EyeDraw>)
      returns (lower: nat, upper: nat, parts: Parts, br: Brackets)
    requires Observed(o) && ClaimsIn(claims, |o.keys|)
    ensures PartsOf(o, parts) && BracketsOf(o.rows, br)
    ensures lower == RemovedUnder(k, FormOf(b), parts, o.rows, claims, draws, Maybe(br))
    ensures upper == RemovedUnder(k, FormOf(b), parts, o.rows, claims, draws, Sure(br))
    ensures lower == |GoneDraws(k, FormOf(b), parts, o.rows, claims, draws, Maybe(br))|
    ensures upper == |GoneDraws(k, FormOf(b), parts, o.rows, claims, draws, Sure(br))|
    ensures Sound(o, k, b, parts, br) ==>
      forall w :: Consistent(o, w) ==> lower <= TrulyRemoved(o, k, b, w, claims, draws) <= upper
  {
    hide Consistent, Sound, PartsOf, BracketsOf, DrawsRemoved, KeptUnder, TrulyKept;
    parts := GatherParts(o);
    KeysOf(o, parts);
    lower, upper, br := RemovedInterval(k, FormOf(b), parts, o.rows, claims, draws);
    SoundIffContains(o, k, b, parts, br);
    if Sound(o, k, b, parts, br) {
      forall w | Consistent(o, w)
        ensures lower <= TrulyRemoved(o, k, b, w, claims, draws) <= upper
      {
        assert Contains(o, k, b, parts, br, w, claims, draws);
      }
    }
  }

  // ---------------------------------------------------------------- inputs on which it is not sound

  const BUILDER: G.Builder :=
    G.Builder(10, 0, 0, 0, 0, 0, [], 0, 0, 0, 0, [], [], [], 5, 0, 0, 0, 0, 0)
  const KEY: PartKey := (10, 0, 0)

  /** Part rows that passed in eye A, each of an entry of its own, of which the first is asked about. */
  function Example(rows: seq<Row>, flags: seq<nat>): Observation
    requires |rows| == |flags|
  {
    Observation([BUILDER], seq(|rows|, n requires 0 <= n < |rows| => PassedRow(n, flags[n])), rows, 5, 0, 1, [KEY])
  }

  function PassedRow(entry: nat, flags: nat): G.Part { G.Part(0, 0, 0, 0, [], 0, 5, 0, entry, 0, 0, 0, 1, flags) }

  function ExampleParts(counted: bool): Parts {
    Parts([KEY], if counted then map[(KEY, EyeA) := [0]] else map[], map[EyeA := [true], EyeB := [false]])
  }

  ghost predicate Passing(rows: seq<Row>, flags: seq<nat>) {
    |rows| == |flags| > 0 &&
    forall i: nat :: i < |rows| ==> flags[i] in {0, 16} && rows[i].ok && Rerun(rows[i], PassedRow(i, flags[i]))
  }

  lemma {:induction false} ExampleAdmits(rows: seq<Row>, flags: seq<nat>)
    requires Passing(rows, flags)
    ensures var o := Example(rows, flags);
      Observed(o) && PartsOf(o, ExampleParts(flags[0] == 0)) &&
      (forall e: Eye, i: nat :: Admits(o, e, 0, i) <==> e == EyeA && i == 0) &&
      forall i: nat :: i < |rows| ==> (Trusted(o, i) <==> flags[i] == 0)
  {
    hide Rerun;
    var o, parts := Example(rows, flags), ExampleParts(flags[0] == 0);
    assert forall i: nat :: i < |rows| ==> o.parts[i] == PassedRow(i, flags[i]) && rows[i].passed by {
      forall i: nat | i < |rows|
        ensures rows[i].passed
      {
        RerunPassed(rows[i], i, flags[i]);
      }
    }
    assert Observed(o);
    assert forall e: Eye, i: nat :: Admits(o, e, 0, i) <==> e == EyeA && i == 0;
    assert Admits(o, EyeA, 0, 0);
    forall e: Eye
      ensures e in parts.admitted && |parts.admitted[e]| == 1
    {
      assert e.EyeA? || e.EyeB?;
    }
    assert ValidParts(parts, o.rows);
    forall e: Eye
      ensures AdmittedRight(o, parts, e, 0)
    {
      assert e.EyeA? || e.EyeB?;
    }
    forall e: Eye
      ensures CountedRight(o, parts, e, 0)
    {
    }
  }

  lemma RerunPassed(r: Row, n: nat, flags: nat)
    requires Rerun(r, PassedRow(n, flags))
    ensures r.passed
  {
  }

  lemma {:induction false} ExampleFlags(rows: seq<Row>, flags: seq<nat>, k: real, b: Bias, br: Brackets, w: World)
    requires Passing(rows, flags)
    ensures var o, parts := Example(rows, flags), ExampleParts(flags[0] == 0);
      Observed(o) && PartsOf(o, parts) &&
      Prints(o, k, b, parts, br, w,
             if flags[0] == 0 && RowKept(k, FormOf(b), rows[0], Maybe(br)) then 0 else 1,
             if EnginePasses(k, b, TermsOf(o, w, 0)) then 0 else 1,
             if flags[0] == 0 && RowKept(k, FormOf(b), rows[0], Sure(br)) then 0 else 1)
  {
    hide PartsOf, PartKept, Prints, RowKept, EnginePasses, TermsOf, Admits, Trusted, Rerun, ExampleParts;
    var o, parts := Example(rows, flags), ExampleParts(flags[0] == 0);
    ExampleAdmits(rows, flags);
    assert Admits(o, EyeA, 0, 0) && (Trusted(o, 0) <==> flags[0] == 0);
    FlagIsFromRows(o, k, FormOf(b), parts, Maybe(br), EyeA, 0);
    FlagIsFromRows(o, k, FormOf(b), parts, Sure(br), EyeA, 0);
    PrintsFlags(o, k, b, parts, br, w);
  }

  /** The draw of a slot that only the part claims, under the three readings of what the bias removes. */
  ghost predicate Prints(o: Observation, k: real, b: Bias, parts: Parts, br: Brackets, w: World, lower: nat, truly: nat,
      upper: nat)
    requires Observed(o) && PartsOf(o, parts) && |o.keys| == 1
  {
    var claims: Claims, draws := map[0 := [0]], [(EyeA, [0])];
    ClaimsIn(claims, 1) && TrulyRemoved(o, k, b, w, claims, draws) == truly &&
    RemovedUnder(k, FormOf(b), parts, o.rows, claims, draws, Maybe(br)) == lower &&
    RemovedUnder(k, FormOf(b), parts, o.rows, claims, draws, Sure(br)) == upper
  }

  lemma {:induction false} PrintsFlags(o: Observation, k: real, b: Bias, parts: Parts, br: Brackets, w: World)
    requires Observed(o) && PartsOf(o, parts) && |o.keys| == 1
    ensures Prints(o, k, b, parts, br, w,
        if PartKept(k, FormOf(b), parts, o.rows, Maybe(br), EyeA, 0) then 0 else 1,
        if StillPasses(o, k, b, w, EyeA, 0) then 0 else 1,
        if PartKept(k, FormOf(b), parts, o.rows, Sure(br), EyeA, 0) then 0 else 1)
  {
    hide PartKept, StillPasses, DrawsRemoved;
    KeysOf(o, parts);
    OneDraw(KeptUnder(k, FormOf(b), parts, o.rows, Sure(br)), EyeA, 0, 1);
    OneDraw(KeptUnder(k, FormOf(b), parts, o.rows, Maybe(br)), EyeA, 0, 1);
    OneDraw(TrulyKept(o, k, b, w), EyeA, 0, 1);
  }

  /** A part whose only row has an unread sphere: without any bias its draw is reported as removed. */
  lemma {:induction false} UncountedPartIsLost(b: Bias) returns (o: Observation, parts: Parts, br: Brackets, w: World)
    ensures Observed(o) && PartsOf(o, parts) && BracketsOf(o.rows, br) && Consistent(o, w)
    ensures parts.admitted[EyeA] == [true] && |o.keys| == 1 && Prints(o, 1.0, b, parts, br, w, 1, 0, 1)
  {
    hide PartsOf, Prints, Trusted, EnginePasses, EngineAdmits, LodDistance, RowKept;
    var r := Row(true, true, true, true, 7, 0.0, 0, 0.0, 0.0, 0.0, 0.0, 0.0, None);
    o, parts, br := Example([r], [16]), ExampleParts(false), Brackets(map[7 := 0.0], map[]);
    w := World((m: nat) => 0.0, (n: nat) => 0.0, (n: nat) => EASY);
    assert Rerun(r, PassedRow(0, 16)) by {
      ZeroRerun(r);
    }
    ExampleAdmits([r], [16]);
    EasyPasses(1.0, b);
    assert TrustedRows(o) == [r.(ok := false)] && PassRow(o.rows[0]) && TermsOf(o, w, 0) == EASY;
    assert Accounts(o, w, 0);
    ExampleFlags([r], [16], 1.0, b, br, w);
  }

  lemma ZeroRerun(r: Row)
    requires r == Row(true, true, true, true, 7, 0.0, 0, 0.0, 0.0, 0.0, 0.0, 0.0, None)
    ensures Rerun(r, PassedRow(0, 16))
  {
  }

  /**
   A view of scale 0.1 and orthographic constant 1, ten metres away, with a recorded t0 of 3: at twice the scale the
   distance is 2.6, and the tool takes it to be 3.6.
   */
  lemma {:induction false} ScaledViewIsMisjudged() returns (o: Observation, parts: Parts, br: Brackets, w: World)
    ensures Observed(o) && PartsOf(o, parts) && BracketsOf(o.rows, br) && Consistent(o, w)
    ensures |o.keys| == 1 && Prints(o, 2.0, ViewScale, parts, br, w, 1, 0, 1)
  {
    hide PartsOf, Prints, Trusted;
    var table: LodTable := TableFields([3.0, 0.0, 0.0, 0.0, 0.0, 0.0, 0.0, 0.0], 0);
    var r := Row(true, true, true, true, 7, 1.8, 0, 0.1, 10.0, 1.0, 2.0, 1.0, Some(table));
    o, parts, br := Example([r], [0]), ExampleParts(true), Brackets(map[7 := 1.8], map[]);
    w := World((m: nat) => 3.0, (n: nat) => 3.0, (n: nat) => EASY);
    assert LodDistance(0.1, 10.0, 2.0, 1.0, 1.0) == 1.8 && LodDistance(2.0 * 0.1, 10.0, 2.0, 1.0, 1.0) == 2.6;
    ExampleAdmits([r], [0]);
    assert TrustedRows(o) == [r] && TermsOf(o, w, 0) == Recorded(r, 3.0) && PassRow(o.rows[0]);
    assert Accounts(o, w, 0);
    assert !RowKept(2.0, Scale, r, Maybe(br)) && !RowKept(2.0, Scale, r, Sure(br));
    assert EnginePasses(2.0, ViewScale, TermsOf(o, w, 0));
    ExampleFlags([r], [0], 2.0, ViewScale, br, w);
  }

  /** A row that passed at the distance f of a model without a table. */
  function Plain(f: real, d: real, R: real): Row { Row(true, true, true, true, 7, f, 0, 1.0, d, 0.0, R, 1.0, None) }

  lemma PlainPasses(k: real, f: real, d: real, R: real, t0: real, flags: nat, n: nat)
    requires f == d - R && d <= 2.0 * R && k > 0.0
    ensures Rerun(Plain(f, d, R), PassedRow(n, flags))
    ensures EngineAdmits(Recorded(Plain(f, d, R), t0)) <==> f <= t0
    ensures EnginePasses(k, WholeDistance, Recorded(Plain(f, d, R), t0)) <==> k * f <= t0
  {
    assert LodDistance(1.0, d, R, 1.0, 0.0) == f;
  }

  /**
   The brackets also look at rows whose sphere was not read: here one that seems to have passed at a distance of 10,
   next to one that did at 2, with a t0 of 2. At twice the distance the part is lost, and the tool is certain it is
   kept.
   */
  lemma {:induction false} FaultedRowMisleads() returns (o: Observation, parts: Parts, br: Brackets, w: World)
    ensures Observed(o) && PartsOf(o, parts) && BracketsOf(o.rows, br) && Consistent(o, w) && !CleanBrackets(o)
    ensures |o.keys| == 1 && Prints(o, 2.0, WholeDistance, parts, br, w, 0, 1, 0)
  {
    hide PartsOf, Prints, Trusted, EnginePasses, EngineAdmits, LodDistance, Rerun;
    var r, x := Plain(2.0, 4.0, 2.0), Plain(10.0, 20.0, 10.0);
    o, parts, br := Example([r, x], [0, 16]), ExampleParts(true), Brackets(map[7 := 10.0], map[]);
    w := World((m: nat) => 2.0, (n: nat) => 2.0, (n: nat) => EASY);
    PlainPasses(2.0, 2.0, 4.0, 2.0, 2.0, 0, 0);
    PlainPasses(2.0, 10.0, 20.0, 10.0, 2.0, 16, 1);
    EasyPasses(1.0, WholeDistance);
    ExampleAdmits([r, x], [0, 16]);
    assert Trusted(o, 0) && !Trusted(o, 1);
    assert TrustedRows(o) == [r, x.(ok := false)] && PassRow(o.rows[0]) && PassRow(o.rows[1]);
    assert TermsOf(o, w, 0) == Recorded(r, 2.0) && TermsOf(o, w, 1) == EASY;
    assert Accounts(o, w, 0) && Accounts(o, w, 1);
    assert RowKept(2.0, Distance, r, Maybe(br)) && RowKept(2.0, Distance, r, Sure(br));
    ExampleFlags([r, x], [0, 16], 2.0, WholeDistance, br, w);
  }
}
