/**
 The residual geometry and the event detection of tools/flash_patch_residual.py. Distances are real numbers known by
 their squares, so nothing is rounded.
 */
module FlashResidual {
  import opened Prelude

  const SMALL_RESIDUAL: real := 1.0
  const EVENT_RUN_MAX: nat := 3

  datatype Vec = Vec(x: real, y: real, z: real)

  function Plus(a: Vec, b: Vec): Vec { Vec(a.x + b.x, a.y + b.y, a.z + b.z) }

  function Minus(a: Vec, b: Vec): Vec { Vec(a.x - b.x, a.y - b.y, a.z - b.z) }

  function Dot(a: Vec, b: Vec): real { a.x * b.x + a.y * b.y + a.z * b.z }

  /** d is the distance of a and b. */
  predicate Apart(a: Vec, b: Vec, d: real) { d >= 0.0 && d * d == Dot(Minus(a, b), Minus(a, b)) }

  // ---------------------------------------------------------------- the triangle inequality

  /** Lagrange's identity: the product of the squares exceeds the square of the product by a sum of squares. */
  lemma Lagrange(u: Vec, v: Vec)
    ensures Dot(u, v) * Dot(u, v) <= Dot(u, u) * Dot(v, v)
  {
    var a, b, c := u.x * v.y - u.y * v.x, u.y * v.z - u.z * v.y, u.z * v.x - u.x * v.z;
    assert Dot(u, u) * Dot(v, v) - Dot(u, v) * Dot(u, v) == a * a + b * b + c * c by {
      LagrangeIdentity(u.x, u.y, u.z, v.x, v.y, v.z);
    }
    assert a * a >= 0.0 && b * b >= 0.0 && c * c >= 0.0;
  }

  lemma LagrangeIdentity(a: real, b: real, c: real, p: real, q: real, r: real)
    ensures (a * a + b * b + c * c) * (p * p + q * q + r * r) - (a * p + b * q + c * r) * (a * p + b * q + c * r) ==
      (a * q - b * p) * (a * q - b * p) + (b * r - c * q) * (b * r - c * q) + (c * p - a * r) * (c * p - a * r)
  {
  }

  lemma PositiveProduct(x: real, y: real)
    requires x > 0.0 && y > 0.0
    ensures x * y > 0.0
  {
  }

  lemma RootsCompare(a: real, b: real)
    requires b >= 0.0 && a * a <= b * b
    ensures a <= b
  {
    if a > b {
      assert (a - b) * (a + b) == a * a - b * b;
      PositiveProduct(a - b, a + b);
    }
  }

  lemma SquareOfProduct(x: real, y: real)
    ensures (x * y) * (x * y) == (x * x) * (y * y)
  {
  }

  lemma SquareOfSum(u: Vec, v: Vec)
    ensures Dot(Plus(u, v), Plus(u, v)) == Dot(u, u) + Dot(v, v) + 2.0 * Dot(u, v)
  {
  }

  /** Going by way of b is never shorter. */
  lemma Triangle(a: Vec, b: Vec, c: Vec, x: real, y: real, z: real)
    requires Apart(a, b, x) && Apart(b, c, y) && Apart(a, c, z)
    ensures z <= x + y
  {
    hide Dot;
    var u, v := Minus(a, b), Minus(b, c);
    assert Minus(a, c) == Plus(u, v);
    SquareOfSum(u, v);
    Lagrange(u, v);
    SquareOfProduct(x, y);
    assert x * y >= 0.0;
    RootsCompare(Dot(u, v), x * y);
    assert (x + y) * (x + y) == x * x + y * y + 2.0 * (x * y);
    RootsCompare(z, x + y);
  }

  lemma Symmetric(a: Vec, b: Vec, d: real)
    requires Apart(a, b, d)
    ensures Apart(b, a, d)
  {
  }

  // ---------------------------------------------------------------- the residuals of an event

  /** How far the scene patch p lands from an eye, drawn with a base. */
  predicate Residual(base: Vec, p: Vec, eye: Vec, d: real) { Apart(Plus(base, p), eye, d) }

  /**
   The residuals of the held and the new patch against one eye differ by at most the distance of the bases, and cannot
   add up to less than it.
   */
  lemma ResidualBounds(held: Vec, new_: Vec, p: Vec, eye: Vec, h: real, n: real, delta: real)
    requires Residual(held, p, eye, h) && Residual(new_, p, eye, n) && Apart(held, new_, delta)
    ensures h - n <= delta && n - h <= delta && delta <= h + n
  {
    hide Dot;
    var a, b := Plus(held, p), Plus(new_, p);
    assert Minus(a, b) == Minus(held, new_) && Minus(b, a) == Minus(new_, held);
    Symmetric(held, new_, delta);
    Symmetric(a, eye, h);
    Symmetric(b, eye, n);
    Triangle(a, b, eye, delta, n, h);
    Triangle(b, a, eye, delta, h, n);
    Triangle(a, eye, b, h, n, delta);
  }

  function Max(a: real, b: real): real { if a < b then b else a }

  function Small(delta: real): real { Max(SMALL_RESIDUAL, delta / 10.0) }

  function Huge(delta: real): real { delta / 2.0 }

  /** h and n can be the residuals of two patches whose bases are delta apart. */
  ghost predicate Feasible(h: real, n: real, delta: real) {
    exists held, new_, p, eye :: Residual(held, p, eye, h) && Residual(new_, p, eye, n) && Apart(held, new_, delta)
  }

  lemma FeasibleBounds(h: real, n: real, delta: real)
    requires Feasible(h, n, delta)
    ensures h - n <= delta && n - h <= delta && delta <= h + n
  {
    hide Apart, Residual;
    var held, new_, p, eye :| Residual(held, p, eye, h) && Residual(new_, p, eye, n) && Apart(held, new_, delta);
    ResidualBounds(held, new_, p, eye, h, n, delta);
  }

  function OnAxis(x: real): Vec { Vec(x, 0.0, 0.0) }

  lemma AxisApart(x: real, y: real, d: real)
    requires d >= 0.0 && (d == x - y || d == y - x)
    ensures Apart(OnAxis(x), OnAxis(y), d)
  {
    assert Minus(OnAxis(x), OnAxis(y)) == OnAxis(x - y);
    assert Dot(OnAxis(x - y), OnAxis(x - y)) == (x - y) * (x - y);
  }

  /** Two patches on a line with the eye between them. */
  lemma OnALine(delta: real, h: real, n: real)
    requires h >= 0.0 && n >= 0.0 && h + n == delta
    ensures Feasible(h, n, delta)
  {
    AxisApart(0.0, h, h);
    AxisApart(delta, h, n);
    AxisApart(0.0, delta, delta);
    LinePatches(OnAxis(0.0), OnAxis(delta), OnAxis(h), h, n, delta);
  }

  lemma LinePatches(zero: Vec, far: Vec, eye: Vec, h: real, n: real, delta: real)
    requires zero == Vec(0.0, 0.0, 0.0) && Apart(zero, eye, h) && Apart(far, eye, n) && Apart(zero, far, delta)
    ensures Feasible(h, n, delta)
  {
    hide Apart;
    assert Plus(zero, zero) == zero && Plus(far, zero) == far;
    assert Residual(zero, zero, eye, h) && Residual(far, zero, eye, n);
  }

  /** A patch that lands on the eye within the small bound leaves the other at least the huge bound away. */
  ghost predicate SmallLeavesHuge(delta: real) {
    forall h: real, n: real :: Feasible(h, n, delta) && n < Small(delta) ==> h >= Huge(delta)
  }

  /** Both patches land on the same eye within the small bound. */
  ghost predicate BothCanBeSmall(delta: real) {
    exists h: real, n: real :: Feasible(h, n, delta) && h < Small(delta) && n < Small(delta)
  }

  lemma LargeStepsAreSafe(delta: real)
    requires delta >= 2.0
    ensures SmallLeavesHuge(delta) && !BothCanBeSmall(delta)
  {
    hide Feasible;
    forall h: real, n: real | Feasible(h, n, delta) && n < Small(delta)
      ensures h >= Huge(delta) && h >= Small(delta)
    {
      FeasibleBounds(h, n, delta);
    }
  }

  lemma SmallStepsAreNot(delta: real)
    requires 0.0 < delta < 2.0
    ensures !SmallLeavesHuge(delta) && BothCanBeSmall(delta)
  {
    hide Feasible;
    var m := if delta < 1.0 then 3.0 * delta / 4.0 else delta / 4.0 + 0.5;
    OnALine(delta, delta - m, m);
    assert m < Small(delta) && delta - m < Huge(delta);
  }

  lemma NoStep()
    ensures SmallLeavesHuge(0.0) && BothCanBeSmall(0.0)
  {
    hide Feasible;
    OnALine(0.0, 0.0, 0.0);
    assert 0.0 < Small(0.0);
    forall h: real, n: real | Feasible(h, n, 0.0) && n < Small(0.0)
      ensures h >= Huge(0.0)
    {
      FeasibleBounds(h, n, 0.0);
    }
  }

  /**
   The test that the wrong patch is far off adds nothing to the test that the right one is close, and the two patches
   cannot both be close to one eye, exactly when the bases are at least two metres apart (or not apart at all, for the
   first).
   */
  lemma TheThresholdIsTwo(delta: real)
    requires delta >= 0.0
    ensures SmallLeavesHuge(delta) <==> delta == 0.0 || delta >= 2.0
    ensures BothCanBeSmall(delta) <==> delta < 2.0
  {
    if delta >= 2.0 {
      LargeStepsAreSafe(delta);
    } else if delta > 0.0 {
      SmallStepsAreNot(delta);
    } else {
      NoStep();
    }
  }

  // ---------------------------------------------------------------- the verdict

  datatype Class = SceneNew | SceneOld | Unclear

  datatype Residuals = Residuals(heldPrev: Option<real>, heldNext: Option<real>, newPrev: Option<real>,
      newNext: Option<real>)

  datatype Evidence = Evidence(cam: Option<real>, pool: Option<real>, reset: bool)

  /** Which frame the objects were in, as far as the evidence says. */
  function Classify(e: Evidence): Class {
    if e.reset then SceneNew
    else if e.cam.Some? && e.pool.Some? && e.cam.value > 10.0 * Max(e.pool.value, 0.001) && e.cam.value > 100.0
      then SceneOld
    else if e.cam.Some? && e.pool.Some? && e.pool.value > 0.8 * e.cam.value && e.cam.value > 100.0 then SceneNew
    else Unclear
  }

  /** The right patch is close and the wrong one far off; neither passes when it is not known. */
  predicate Fits(right: Option<real>, wrong: Option<real>, delta: Option<real>) {
    right.Some? && delta.Some? && right.value < Small(delta.value) && wrong.Some? && wrong.value >= Huge(delta.value)
  }

  /** Whether the patch the class prefers meets what is expected of it; unknown when no class is. */
  function Matches(c: Class, r: Residuals, delta: Option<real>): Option<bool> {
    match c
    case SceneNew => Some(Fits(r.newNext, r.heldNext, delta))
    case SceneOld => Some(Fits(r.heldPrev, r.newPrev, delta))
    case Unclear => None
  }

  /** The residuals of an event whose bases, patch and eyes are all known. */
  ghost predicate Measured(r: Residuals, held: Vec, new_: Vec, p: Vec, previous: Vec, next: Vec) {
    r.heldPrev.Some? && r.heldNext.Some? && r.newPrev.Some? && r.newNext.Some? &&
    Residual(held, p, previous, r.heldPrev.value) && Residual(held, p, next, r.heldNext.value) &&
    Residual(new_, p, previous, r.newPrev.value) && Residual(new_, p, next, r.newNext.value)
  }

  /** For bases two metres apart or more, an event matches exactly when its preferred patch is close. */
  lemma MatchIsThePreferredPatchClose(c: Class, r: Residuals, held: Vec, new_: Vec, p: Vec, previous: Vec, next: Vec,
      delta: real)
    requires Measured(r, held, new_, p, previous, next) && Apart(held, new_, delta) && delta >= 2.0
    ensures c == SceneNew ==> Matches(c, r, Some(delta)) == Some(r.newNext.value < Small(delta))
    ensures c == SceneOld ==> Matches(c, r, Some(delta)) == Some(r.heldPrev.value < Small(delta))
  {
    hide Apart;
    ResidualBounds(held, new_, p, next, r.heldNext.value, r.newNext.value, delta);
    ResidualBounds(held, new_, p, previous, r.heldPrev.value, r.newPrev.value, delta);
  }

  // ---------------------------------------------------------------- a dump and its un-refilled runs

  datatype Call = Call(frame: nat, unrefilled: bool, treat: string, m: Vec, cached: Vec)

  /** A frame's summary: where the scene was, unless it is not a number, and the evidence. */
  datatype Summary = Summary(scene: Option<Vec>, stale: bool, evidence: Evidence)

  datatype Dump = Dump(calls: seq<Call>, summaries: map<nat, Summary>)

  datatype Run = Run(start: nat, length: nat) {
    function End(): nat { start + length }
  }

  /** Calls start to start + length, all un-refilled, with a refilled call or nothing at either side. */
  ghost predicate MaximalRun(calls: seq<Call>, r: Run) {
    r.length > 0 && r.End() <= |calls| && (forall i: nat :: r.start <= i < r.End() ==> calls[i].unrefilled) &&
    (r.start > 0 ==> !calls[r.start - 1].unrefilled) && (r.End() < |calls| ==> !calls[r.End()].unrefilled)
  }

  predicate Holds(r: Run, i: nat) { r.start <= i < r.End() }

  /** Call c skipped the refill in the frame. */
  predicate Skips(c: Call, frame: nat) { c.frame == frame && c.unrefilled }

  /** The first call from `from` on that skips in the frame, or the number of calls. */
  function SkipFrom(calls: seq<Call>, frame: nat, from: nat): (i: nat)
    requires from <= |calls|
    ensures from <= i <= |calls| && (i < |calls| ==> Skips(calls[i], frame))
    ensures forall j: nat :: from <= j < i ==> !Skips(calls[j], frame)
    decreases |calls| - from
  {
    if from == |calls| || Skips(calls[from], frame) then from else SkipFrom(calls, frame, from + 1)
  }

  /** The first refilled call from `from` on, or the number of calls. */
  function RefillFrom(calls: seq<Call>, from: nat): (k: nat)
    requires from <= |calls|
    ensures from <= k <= |calls| && (k < |calls| ==> !calls[k].unrefilled)
    ensures forall j: nat :: from <= j < k ==> calls[j].unrefilled
    decreases |calls| - from
  {
    if from == |calls| || !calls[from].unrefilled then from else RefillFrom(calls, from + 1)
  }

  /** The base held through a skip and the one after it. */
  datatype Bases = Bases(held: Option<Vec>, renewed: Option<Vec>)

  /** What call k, if there is one, was refilled with. */
  function RefilledBase(calls: seq<Call>, k: nat): Option<Vec> { if k < |calls| then Some(calls[k].m) else None }

  /** The bases an event of the frame is given: of the first skip in that frame and the first refill after it. */
  function FrameBases(calls: seq<Call>, frame: nat): Bases {
    var i := SkipFrom(calls, frame, 0);
    if i == |calls| then Bases(None, None)
    else Bases(Some(calls[i].cached), RefilledBase(calls, RefillFrom(calls, i + 1)))
  }

  /** The bases of a run itself: cached where it begins, current where it has ended. */
  function RunBases(calls: seq<Call>, r: Run): Bases
    requires r.start < |calls|
  {
    Bases(Some(calls[r.start].cached), RefilledBase(calls, r.End()))
  }

  // ---------------------------------------------------------------- whose bases an event is given

  /** The frame in which a run began was skipped in before. */
  ghost predicate SkippedBefore(calls: seq<Call>, r: Run)
    requires r.start < |calls|
  {
    exists i: nat :: i < r.start && Skips(calls[i], calls[r.start].frame)
  }

  /** The same frames skip and refill at the same places, with whatever bases. */
  ghost predicate SamePattern(calls: seq<Call>, others: seq<Call>) {
    |calls| == |others| &&
    forall i: nat :: i < |calls| ==> calls[i].frame == others[i].frame && calls[i].unrefilled == others[i].unrefilled
  }

  /** Whatever the bases recorded along this pattern of calls, the event of run r is given those of the run. */
  ghost predicate AlwaysItsOwn(calls: seq<Call>, r: Run)
    requires r.start < |calls|
  {
    forall others: seq<Call> :: SamePattern(calls, others) ==>
      FrameBases(others, others[r.start].frame) == RunBases(others, r)
  }

  lemma {:induction false} FirstSkipIsOwn(calls: seq<Call>, r: Run)
    requires MaximalRun(calls, r) && !SkippedBefore(calls, r)
    ensures FrameBases(calls, calls[r.start].frame) == RunBases(calls, r)
  {
    var i := SkipFrom(calls, calls[r.start].frame, 0);
    assert i == r.start;
    assert RefillFrom(calls, i + 1) == r.End();
  }

  /** Otherwise both bases are from before the run: of an earlier run and the refill that ended it. */
  lemma {:induction false} BasesFromBefore(calls: seq<Call>, r: Run)
    requires MaximalRun(calls, r) && SkippedBefore(calls, r)
    ensures var n := calls[r.start].frame; var i := SkipFrom(calls, n, 0);
      i < r.start && i < RefillFrom(calls, i + 1) < r.start &&
      FrameBases(calls, n) == Bases(Some(calls[i].cached), Some(calls[RefillFrom(calls, i + 1)].m))
  {
  }

  /** The calls with a base of its own for each. */
  function Numbered(calls: seq<Call>): (others: seq<Call>)
    ensures SamePattern(calls, others)
  {
    seq(|calls|, i requires 0 <= i < |calls| => calls[i].(cached := OnAxis(i as real)))
  }

  /** An event is sure to be given the bases of its own run exactly when its frame was not skipped in before the run. */
  lemma {:induction false} OwnBasesIff(calls: seq<Call>, r: Run)
    requires MaximalRun(calls, r)
    ensures AlwaysItsOwn(calls, r) <==> !SkippedBefore(calls, r)
  {
    if SkippedBefore(calls, r) {
      var others := Numbered(calls);
      var i: nat :| i < r.start && Skips(calls[i], calls[r.start].frame);
      assert Skips(others[i], others[r.start].frame);
      BasesFromBefore(others, r);
    } else {
      forall others: seq<Call> | SamePattern(calls, others)
        ensures FrameBases(others, others[r.start].frame) == RunBases(others, r)
      {
        FirstSkipIsOwn(others, r);
      }
    }
  }

  /** One frame with a skip, a refill and a skip: the second event is given the bases of the first. */
  lemma {:induction false} BasesOfAnotherRun(a: Vec, b: Vec, c: Vec, zero: Vec)
    ensures var calls :=
      [Call(5, true, "watched", zero, a), Call(5, false, "none", b, b), Call(5, true, "watched", zero, c)];
      MaximalRun(calls, Run(2, 1)) && SkippedBefore(calls, Run(2, 1)) &&
      FrameBases(calls, 5) == Bases(Some(a), Some(b)) && RunBases(calls, Run(2, 1)) == Bases(Some(c), None)
  {
    var calls := [Call(5, true, "watched", zero, a), Call(5, false, "none", b, b), Call(5, true, "watched", zero, c)];
    assert Skips(calls[0], calls[2].frame);
    BasesFromBefore(calls, Run(2, 1));
  }

  /** The frame of the second event may also lie inside the first run rather than begin it. */
  lemma {:induction false} BasesFromInsideARun(a: Vec, b: Vec, c: Vec, zero: Vec)
    ensures var calls :=
      [Call(4, true, "watched", zero, zero), Call(5, true, "watched", zero, a), Call(5, false, "none", b, b),
       Call(5, true, "watched", zero, c)];
      MaximalRun(calls, Run(3, 1)) && SkippedBefore(calls, Run(3, 1)) &&
      FrameBases(calls, 5) == Bases(Some(a), Some(b)) && RunBases(calls, Run(3, 1)) == Bases(Some(c), None)
  {
    var calls := [Call(4, true, "watched", zero, zero), Call(5, true, "watched", zero, a), Call(5, false, "none", b, b),
                  Call(5, true, "watched", zero, c)];
    assert Skips(calls[1], calls[3].frame);
    BasesFromBefore(calls, Run(3, 1));
    assert SkipFrom(calls, 5, 0) == 1;
  }

  // ---------------------------------------------------------------- an event computed from a dump

  /** Where a fresh summary of the frame saw the scene. */
  function SceneAt(d: Dump, frame: nat): (s: Option<Vec>)
    ensures s.Some? <==> frame in d.summaries && !d.summaries[frame].stale && d.summaries[frame].scene.Some?
    ensures s.Some? ==> s == d.summaries[frame].scene
  {
    if frame in d.summaries && !d.summaries[frame].stale then d.summaries[frame].scene else None
  }

  function EvidenceAt(d: Dump, frame: nat): Evidence {
    if frame in d.summaries then d.summaries[frame].evidence else Evidence(None, None, false)
  }

  /** The frame's summary says that the camera had stepped and the objects had not: ten times further, and far. */
  predicate CameraAlone(d: Dump, frame: nat) {
    frame in d.summaries &&
    match d.summaries[frame].evidence
    case Evidence(Some(cam), Some(pool), false) => cam > 100.0 && cam > 10.0 * pool && cam > 0.01
    case _ => false
  }

  /** It says that the objects had stepped with the camera: by a reset, or four fifths as far, and far. */
  predicate StepTogether(d: Dump, frame: nat) {
    frame in d.summaries &&
    match d.summaries[frame].evidence
    case Evidence(_, _, true) => true
    case Evidence(Some(cam), Some(pool), false) => cam > 100.0 && 5.0 * pool > 4.0 * cam
    case _ => false
  }

  /** What the class says of the evidence, whole. */
  lemma ClassIff(d: Dump, frame: nat)
    ensures var c := Classify(EvidenceAt(d, frame));
      (c == SceneOld <==> CameraAlone(d, frame)) && (c == SceneNew <==> StepTogether(d, frame))
    ensures !(CameraAlone(d, frame) && StepTogether(d, frame))
  {
  }

  /** The distance of a patch from an eye, if all of it is known. */
  function Away(dist: (Vec, Vec) -> real, base: Option<Vec>, p: Vec, eye: Option<Vec>): Option<real> {
    if base.Some? && eye.Some? then Some(dist(Plus(base.value, p), eye.value)) else None
  }

  function Distance(dist: (Vec, Vec) -> real, a: Option<Vec>, b: Option<Vec>): Option<real> {
    if a.Some? && b.Some? then Some(dist(a.value, b.value)) else None
  }

  datatype Kind = Transition | Stretch

  /** An un-refilled run that began in frame n; a transition's fields are computed, a stretch's stay as they are. */
  class Event {
    const kind: Kind
    const n: nat
    const last: nat
    const runLength: nat
    const treats: set<string>
    var oldBase: Option<Vec>
    var newBase: Option<Vec>
    var p: Option<Vec>
    var eyePrev: Option<Vec>
    var eyeNext: Option<Vec>
    var res: Residuals
    var cls: Class
    var met: Option<bool>

    constructor (kind: Kind, run: seq<Call>)
      requires run != []
      ensures this.kind == kind && n == run[0].frame && last == run[|run| - 1].frame && runLength == |run|
      ensures forall t :: t in treats <==> exists i: nat :: i < |run| && run[i].treat == t
      ensures Blank()
    {
      this.kind, n, last, runLength := kind, run[0].frame, run[|run| - 1].frame, |run|;
      treats := set i: nat | i < |run| :: run[i].treat;
      oldBase, newBase, p, eyePrev, eyeNext := None, None, None, None, None;
      res, cls, met := Residuals(None, None, None, None), Unclear, None;
    }

    /** Nothing is computed. */
    predicate Blank()
      reads this
    {
      oldBase == newBase == p == eyePrev == eyeNext == None && Unjudged()
    }

    predicate Unjudged()
      reads this`res, this`cls, this`met
    {
      res == Residuals(None, None, None, None) && cls == Unclear && met == None
    }

    predicate Acted() { "ACTED" in treats }

    /** The event of run r: its frames and treatments, a transition or a stretch by its length. */
    ghost predicate OfRun(calls: seq<Call>, r: Run) {
      MaximalRun(calls, r) && n == calls[r.start].frame && last == calls[r.End() - 1].frame && runLength == r.length &&
      (kind == Transition <==> r.length <= 3) &&
      forall t :: t in treats <==> exists i: nat :: r.start <= i < r.End() && calls[i].treat == t
    }

    /** The scene patch: drawn at the bad frame n + 2 as it is, or upon the held base where that was applied. */
    ghost predicate PatchFound(d: Dump)
      reads this`oldBase, this`p
    {
      var scene := SceneAt(d, n + 2);
      if !Acted() then p == scene
      else (p.Some? <==> scene.Some? && oldBase.Some?) && (p.Some? ==> scene == Some(Plus(oldBase.value, p.value)))
    }

    /** Every field of a transition is what the dump calls for; a stretch has none. */
    ghost predicate Computed(d: Dump, dist: (Vec, Vec) -> real)
      reads this
    {
      if kind == Stretch then Blank() else
        Bases(oldBase, newBase) == FrameBases(d.calls, n) &&
        eyePrev == SceneAt(d, n + 1) && eyeNext == SceneAt(d, n + 3) && PatchFound(d) &&
        if p.None? then Unjudged() else
          res == Residuals(Away(dist, oldBase, p.value, eyePrev), Away(dist, oldBase, p.value, eyeNext),
                           Away(dist, newBase, p.value, eyePrev), Away(dist, newBase, p.value, eyeNext)) &&
          (cls == SceneOld <==> CameraAlone(d, n + 2)) && (cls == SceneNew <==> StepTogether(d, n + 2)) &&
          met == Matches(cls, res, Distance(dist, oldBase, newBase))
    }

    /** The bases: the cached one at the first skip in the frame, the current one at the first refill after it. */
    method FindBases(d: Dump)
      requires oldBase == newBase == None
      modifies this`oldBase, this`newBase
      ensures Bases(oldBase, newBase) == FrameBases(d.calls, n)
    {
      for i := 0 to |d.calls|
        invariant oldBase == newBase == None && SkipFrom(d.calls, n, 0) == SkipFrom(d.calls, n, i)
      {
        if Skips(d.calls[i], n) {
          oldBase := Some(d.calls[i].cached);
          for k := i + 1 to |d.calls|
            invariant newBase == None && RefillFrom(d.calls, i + 1) == RefillFrom(d.calls, k)
          {
            if !d.calls[k].unrefilled {
              newBase := Some(d.calls[k].m);
              return;
            }
          }
          return;
        }
      }
    }

    /** The neighbouring eyes and the scene patch, less the held base if that was applied. */
    method FindPatch(d: Dump)
      requires p == None
      modifies this`p, this`eyePrev, this`eyeNext
      ensures eyePrev == SceneAt(d, n + 1) && eyeNext == SceneAt(d, n + 3) && PatchFound(d)
    {
      var scene := SceneAt(d, n + 2);
      eyePrev, eyeNext := SceneAt(d, n + 1), SceneAt(d, n + 3);
      if !Acted() {
        p := scene;
      } else if scene.Some? && oldBase.Some? {
        p := Some(Minus(scene.value, oldBase.value));
      }
    }

    /** compute: of a transition the bases, the patch and the eyes, the residuals, the class and the match. */
    method Compute(d: Dump, dist: (Vec, Vec) -> real)
      requires Blank()
      modifies this
      ensures Computed(d, dist)
    {
      if kind == Stretch {
        return;
      }
      FindBases(d);
      FindPatch(d);
      if p.None? {
        return;
      }
      res := Residuals(Away(dist, oldBase, p.value, eyePrev), Away(dist, oldBase, p.value, eyeNext),
                       Away(dist, newBase, p.value, eyePrev), Away(dist, newBase, p.value, eyeNext));
      cls := Classify(EvidenceAt(d, n + 2));
      ClassIff(d, n + 2);
      met := Matches(cls, res, Distance(dist, oldBase, newBase));
    }
  }

  /** The distance function measures. */
  ghost predicate Measures(dist: (Vec, Vec) -> real) { forall a, b :: Apart(a, b, dist(a, b)) }

  /**
   Of a computed event whose bases, patch and eyes are known and whose bases lie two metres apart or more: it meets what
   is expected exactly when the patch its class prefers lands within the small bound of that patch's eye.
   */
  lemma ComputedMatch(dist: (Vec, Vec) -> real, held: Vec, new_: Vec, p: Vec, previous: Vec, next: Vec, c: Class)
    requires Measures(dist) && dist(held, new_) >= 2.0
    ensures var r := Residuals(Away(dist, Some(held), p, Some(previous)), Away(dist, Some(held), p, Some(next)),
                               Away(dist, Some(new_), p, Some(previous)), Away(dist, Some(new_), p, Some(next)));
      var met := Matches(c, r, Distance(dist, Some(held), Some(new_)));
      (c == SceneNew ==> met == Some(dist(Plus(new_, p), next) < Small(dist(held, new_)))) &&
      (c == SceneOld ==> met == Some(dist(Plus(held, p), previous) < Small(dist(held, new_)))) &&
      (c == Unclear ==> met == None)
  {
    hide Apart;
    var r := Residuals(Some(dist(Plus(held, p), previous)), Some(dist(Plus(held, p), next)),
                       Some(dist(Plus(new_, p), previous)), Some(dist(Plus(new_, p), next)));
    assert Measured(r, held, new_, p, previous, next);
    MatchIsThePreferredPatchClose(c, r, held, new_, p, previous, next, dist(held, new_));
  }

  /** Near for bases delta apart: within a metre, or a tenth of their distance. */
  predicate Near(x: real, delta: real) { x < 1.0 || 10.0 * x < delta }

  /**
   What a computed transition with bases two metres apart or more is judged by: where only the camera had stepped, the
   held patch against the eye before; where all had, the new patch against the eye after; and nothing otherwise.
   */
  lemma JudgedByEvidence(e: Event, d: Dump, dist: (Vec, Vec) -> real)
    requires e.kind == Transition && e.Computed(d, dist) && Measures(dist)
    requires e.oldBase.Some? && e.newBase.Some? && e.p.Some? && e.eyePrev.Some? && e.eyeNext.Some?
    requires dist(e.oldBase.value, e.newBase.value) >= 2.0
    ensures var held, new_, p := e.oldBase.value, e.newBase.value, e.p.value;
      var delta := dist(held, new_);
      (CameraAlone(d, e.n + 2) ==> e.met == Some(Near(dist(Plus(held, p), e.eyePrev.value), delta))) &&
      (StepTogether(d, e.n + 2) ==> e.met == Some(Near(dist(Plus(new_, p), e.eyeNext.value), delta))) &&
      (!CameraAlone(d, e.n + 2) && !StepTogether(d, e.n + 2) ==> e.met == None)
  {
    hide Measures, CameraAlone, StepTogether, Matches;
    ClassIff(d, e.n + 2);
    ComputedMatch(dist, e.oldBase.value, e.newBase.value, e.p.value, e.eyePrev.value, e.eyeNext.value, e.cls);
  }

  // ---------------------------------------------------------------- finding events

  /** A call belongs to some run of the list. */
  ghost predicate InSome(runs: seq<Run>, i: nat) { exists k: nat :: k < |runs| && Holds(runs[k], i) }

  ghost predicate Ordered(runs: seq<Run>) { forall j: nat, k: nat :: j < k < |runs| ==> runs[j].End() < runs[k].start }

  ghost predicate AllMaximal(calls: seq<Call>, runs: seq<Run>) {
    forall k: nat :: k < |runs| ==> MaximalRun(calls, runs[k])
  }

  /** The runs among the calls before m: maximal, in order, each once, and all of them. */
  ghost predicate Gathered(calls: seq<Call>, m: nat, runs: seq<Run>) {
    m <= |calls| && AllMaximal(calls, runs) && (forall k: nat :: k < |runs| ==> runs[k].End() <= m) && Ordered(runs) &&
    forall i: nat :: i < m ==> (calls[i].unrefilled <==> InSome(runs, i))
  }

  /** The last `open` calls before n are an un-refilled run that began there. */
  ghost predicate OpenRun(calls: seq<Call>, n: nat, open: nat) {
    open <= n <= |calls| && (forall i: nat :: n - open <= i < n ==> calls[i].unrefilled) &&
    (0 < open < n ==> !calls[n - open - 1].unrefilled)
  }

  lemma {:induction false} Flushed(runs: seq<Run>, r: Run)
    ensures forall i: nat :: InSome(runs + [r], i) <==> InSome(runs, i) || Holds(r, i)
  {
    forall i: nat
      ensures InSome(runs + [r], i) <==> InSome(runs, i) || Holds(r, i)
    {
      if InSome(runs, i) {
        var k: nat :| k < |runs| && Holds(runs[k], i);
        assert Holds((runs + [r])[k], i);
      }
      if Holds(r, i) {
        assert Holds((runs + [r])[|runs|], i);
      }
    }
  }

  lemma {:induction false} EndsApart(calls: seq<Call>, r: Run, start: nat)
    requires MaximalRun(calls, r) && r.End() <= start &&
      (start > 0 ==> start <= |calls| && !calls[start - 1].unrefilled)
    ensures r.End() < start
  {
    assert calls[r.End() - 1].unrefilled;
  }

  /** The open run ends: it joins those gathered. */
  lemma {:induction false} Closed(calls: seq<Call>, n: nat, runs: seq<Run>, open: nat)
    requires OpenRun(calls, n, open) && open > 0 && Gathered(calls, n - open, runs)
    requires n < |calls| ==> !calls[n].unrefilled
    ensures Gathered(calls, n, runs + [Run(n - open, open)]) && MaximalRun(calls, Run(n - open, open))
  {
    var r := Run(n - open, open);
    var longer := runs + [r];
    assert MaximalRun(calls, r);
    assert Ordered(longer) by {
      forall j: nat | j < |runs|
        ensures runs[j].End() < r.start
      {
        EndsApart(calls, runs[j], r.start);
      }
    }
    Flushed(runs, r);
    forall i: nat | i < n
      ensures calls[i].unrefilled <==> InSome(longer, i)
    {
    }
  }

  /** A refilled call is in no run. */
  lemma {:induction false} Refilled(calls: seq<Call>, n: nat, runs: seq<Run>)
    requires n < |calls| && Gathered(calls, n, runs) && !calls[n].unrefilled
    ensures Gathered(calls, n + 1, runs) && OpenRun(calls, n + 1, 0)
  {
  }

  /** One event for each run, of that run and computed from the dump. */
  ghost predicate Found(d: Dump, dist: (Vec, Vec) -> real, runs: seq<Run>, events: seq<Event>)
    reads events
  {
    |events| == |runs| &&
    forall k: nat :: k < |events| ==> events[k].OfRun(d.calls, runs[k]) && events[k].Computed(d, dist)
  }

  lemma FoundMore(d: Dump, dist: (Vec, Vec) -> real, runs: seq<Run>, events: seq<Event>, r: Run, ev: Event)
    requires Found(d, dist, runs, events) && ev.OfRun(d.calls, r) && ev.Computed(d, dist)
    ensures Found(d, dist, runs + [r], events + [ev])
  {
    hide Event.OfRun, Event.Computed;
  }

  lemma NothingYet(d: Dump, dist: (Vec, Vec) -> real)
    ensures Gathered(d.calls, 0, []) && OpenRun(d.calls, 0, 0) && Found(d, dist, [], [])
  {
  }

  /** An un-refilled call goes with the open run, or begins one. */
  lemma Unrefilled(calls: seq<Call>, n: nat, open: nat)
    requires OpenRun(calls, n, open) && n < |calls| && calls[n].unrefilled
    requires open == 0 < n ==> !calls[n - 1].unrefilled
    ensures OpenRun(calls, n + 1, open + 1)
  {
  }

  /** The computed event of a run. */
  method EventOf(d: Dump, dist: (Vec, Vec) -> real, run: seq<Call>, ghost r: Run) returns (ev: Event)
    requires MaximalRun(d.calls, r) && run == d.calls[r.start..r.End()]
    ensures fresh(ev) && ev.OfRun(d.calls, r) && ev.Computed(d, dist)
  {
    hide Event.Computed;
    ev := new Event(if |run| <= EVENT_RUN_MAX then Transition else Stretch, run);
    forall t
      ensures t in ev.treats <==> exists i: nat :: r.start <= i < r.End() && d.calls[i].treat == t
    {
      if t in ev.treats {
        var i: nat :| i < |run| && run[i].treat == t;
        assert d.calls[r.start + i].treat == t;
      }
      if i: nat :| r.start <= i < r.End() && d.calls[i].treat == t {
        assert run[i - r.start].treat == t;
      }
    }
    ev.Compute(d, dist);
  }

  /** flush: the run that ends at call n, if there is one, has its event. */
  method Flush(d: Dump, dist: (Vec, Vec) -> real, run: seq<Call>, ghost n: nat, events: seq<Event>,
      ghost runs: seq<Run>)
      returns (longer: seq<Event>, ghost all: seq<Run>)
    requires |run| <= n <= |d.calls| && run == d.calls[n - |run|..n] && OpenRun(d.calls, n, |run|)
    requires n < |d.calls| ==> !d.calls[n].unrefilled
    requires Gathered(d.calls, n - |run|, runs) && Found(d, dist, runs, events)
    ensures Gathered(d.calls, n, all) && Found(d, dist, all, longer)
  {
    hide Event.OfRun, Event.Computed, Gathered, OpenRun, MaximalRun, Found;
    longer, all := events, runs;
    if run != [] {
      ghost var r := Run(n - |run|, |run|);
      assert r.End() == n;
      Closed(d.calls, n, runs, |run|);
      var ev := EventOf(d, dist, run, r);
      FoundMore(d, dist, runs, events, r, ev);
      longer, all := events + [ev], runs + [r];
    }
  }

  /** find_events: one computed event for each maximal run of un-refilled calls, in order, and nothing else. */
  method FindEvents(d: Dump, dist: (Vec, Vec) -> real) returns (events: seq<Event>, ghost runs: seq<Run>)
    ensures Gathered(d.calls, |d.calls|, runs) && Found(d, dist, runs, events)
  {
    hide Event.OfRun, Event.Computed, Gathered, OpenRun, MaximalRun, Found;
    events, runs := [], [];
    var run: seq<Call> := [];
    NothingYet(d, dist);
    for n := 0 to |d.calls|
      invariant |run| <= n && run == d.calls[n - |run|..n]
      invariant OpenRun(d.calls, n, |run|) && (run == [] && 0 < n ==> !d.calls[n - 1].unrefilled)
      invariant Gathered(d.calls, n - |run|, runs) && Found(d, dist, runs, events)
    {
      if d.calls[n].unrefilled {
        Unrefilled(d.calls, n, |run|);
        run := run + [d.calls[n]];
      } else {
        events, runs := Flush(d, dist, run, n, events, runs);
        run := [];
        Refilled(d.calls, n, runs);
      }
    }
    events, runs := Flush(d, dist, run, |d.calls|, events, runs);
  }
}
