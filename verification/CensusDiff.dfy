/**
 The census diff of tools/diff_draw_census.py: the draws of two captures compared by signatures that mean the same in
 both, whatever ordinals each capture gave its objects.
 */
module CensusDiff {
  import opened Prelude

  /** How a draw names an object: nothing, an unknown one, one interned under an ordinal, or one described in place. */
  datatype Token = Absent | Unknown | Ref(ordinal: nat) | Inline(meaning: string)

  datatype Assembly = Assembly(stride: nat, topology: nat, hash: Option<string>)

  datatype Draw = Draw(frame: nat, index: nat, kind: char, n: nat, instances: nat, target: Token, depth: Token,
      constants: Token, slots: seq<Token>, assembly: Option<Assembly>)

  datatype Census = Census(draws: seq<Draw>, frameLines: set<nat>, ids: map<nat, string>)

  datatype Signature = Signature(kind: char, n: nat, target: string, depth: string, slots: seq<string>,
      stride: Option<nat>, topology: Option<nat>, hash: Option<string>)

  /** What a token means across captures. */
  function Resolve(ids: map<nat, string>, t: Token): string {
    match t
    case Absent => "-"
    case Unknown => "?"
    case Ref(k) => if k in ids then ids[k] else "?"
    case Inline(meaning) => meaning
  }

  function ResolveAll(ids: map<nat, string>, slots: seq<Token>): (r: seq<string>)
    ensures |r| == |slots| && forall i: nat :: i < |slots| ==> r[i] == Resolve(ids, slots[i])
  {
    seq(|slots|, i requires 0 <= i < |slots| => Resolve(ids, slots[i]))
  }

  /** The signature leaves out the constant buffer, which is another ordinal in every capture. */
  function SignatureOf(ids: map<nat, string>, d: Draw): Signature {
    Signature(d.kind, d.n, Resolve(ids, d.target), Resolve(ids, d.depth), ResolveAll(ids, d.slots),
              if d.assembly.Some? then Some(d.assembly.value.stride) else None,
              if d.assembly.Some? then Some(d.assembly.value.topology) else None,
              if d.assembly.Some? then d.assembly.value.hash else None)
  }

  /**
   Two draws have one signature exactly when they are of one kind and count, their targets, depths and slots mean the
   same, and they have the same stride, topology and shader, or none of them; whatever their frames, instances and
   constants.
   */
  lemma {:induction false} SignatureSeparates(ids: map<nat, string>, d: Draw, ids': map<nat, string>, d': Draw)
    ensures SignatureOf(ids, d) == SignatureOf(ids', d') <==>
      d.kind == d'.kind && d.n == d'.n && Resolve(ids, d.target) == Resolve(ids', d'.target) &&
      Resolve(ids, d.depth) == Resolve(ids', d'.depth) && |d.slots| == |d'.slots| &&
      (forall i: nat :: i < |d.slots| ==> Resolve(ids, d.slots[i]) == Resolve(ids', d'.slots[i])) &&
      d.assembly == d'.assembly
  {
    var a, b := ResolveAll(ids, d.slots), ResolveAll(ids', d'.slots);
    if a == b {
      assert forall i: nat :: i < |d.slots| ==> a[i] == b[i];
    }
  }

  // ---------------------------------------------------------------- draws by signature

  /** The draws of a signature in a frame, among the first n. */
  function Select(c: Census, n: nat, s: Signature, f: nat): seq<Draw>
    requires n <= |c.draws|
  {
    if n == 0 then []
    else
      var d := c.draws[n - 1];
      Select(c, n - 1, s, f) + if SignatureOf(c.ids, d) == s && d.frame == f then [d] else []
  }

  /** All of them. */
  function In(c: Census, s: Signature, f: nat): seq<Draw> { Select(c, |c.draws|, s, f) }

  type Index = map<Signature, map<nat, seq<Draw>>>

  function Look(out: Index, s: Signature, f: nat): seq<Draw> { if s in out && f in out[s] then out[s][f] else [] }

  /** The index holds the first n draws under their signatures and frames, and nothing empty. */
  ghost predicate Indexed(c: Census, n: nat, out: Index)
    requires n <= |c.draws|
  {
    (forall s, f: nat :: Look(out, s, f) == Select(c, n, s, f)) && (forall s :: s in out ==> out[s] != map[]) &&
    forall s, f: nat :: s in out && f in out[s] ==> out[s][f] != []
  }

  /** by_signature: the draws under their signatures and frames. */
  method BySignature(c: Census) returns (out: Index)
    ensures Indexed(c, |c.draws|, out)
  {
    hide SignatureOf;
    out := map[];
    for n := 0 to |c.draws|
      invariant Indexed(c, n, out)
    {
      var d := c.draws[n];
      var s := SignatureOf(c.ids, d);
      IndexStep(c, n, out, d, s);
      var per: map<nat, seq<Draw>> := if s in out then out[s] else map[];
      var before := if d.frame in per then per[d.frame] else [];
      out := out[s := per[d.frame := before + [d]]];
    }
  }

  lemma {:induction false} IndexStep(c: Census, n: nat, out: Index, d: Draw, s: Signature)
    requires n < |c.draws| && Indexed(c, n, out) && d == c.draws[n] && s == SignatureOf(c.ids, d)
    ensures
      var per: map<nat, seq<Draw>> := if s in out then out[s] else map[];
      var before := if d.frame in per then per[d.frame] else [];
      Indexed(c, n + 1, out[s := per[d.frame := before + [d]]])
  {
    hide SignatureOf, Instances, Select;
    var per: map<nat, seq<Draw>> := if s in out then out[s] else map[];
    var before := if d.frame in per then per[d.frame] else [];
    var now := out[s := per[d.frame := before + [d]]];
    forall t, f: nat
      ensures Look(now, t, f) == Select(c, n + 1, t, f)
    {
      LookNext(out, s, d, t, f);
      assert Look(out, t, f) == Select(c, n, t, f);
      SelectNext(c, n, t, f);
    }
    hide Look;
    assert d.frame in now[s];
  }

  lemma LookNext(out: Index, s: Signature, d: Draw, t: Signature, f: nat)
    ensures
      var per: map<nat, seq<Draw>> := if s in out then out[s] else map[];
      var before := if d.frame in per then per[d.frame] else [];
      Look(out[s := per[d.frame := before + [d]]], t, f) ==
        Look(out, t, f) + if t == s && f == d.frame then [d] else []
  {
  }

  lemma SelectNext(c: Census, n: nat, s: Signature, f: nat)
    requires n < |c.draws|
    ensures var d := c.draws[n];
      Select(c, n + 1, s, f) == Select(c, n, s, f) + if SignatureOf(c.ids, d) == s && d.frame == f then [d] else []
  {
  }

  // ---------------------------------------------------------------- what differs

  /** The frames that recorded anything; frame 0 if none did. */
  function FramesSeen(c: Census): (frames: set<nat>)
    ensures frames != {}
  {
    var seen := c.frameLines + set i: nat | i < |c.draws| :: c.draws[i].frame;
    if seen == {} then {0} else seen
  }

  predicate Present(c: Census, s: Signature) { exists i: nat :: i < |c.draws| && SignatureOf(c.ids, c.draws[i]) == s }

  /** Drawn in every frame. */
  predicate IsSteady(c: Census, s: Signature) { forall f :: f in FramesSeen(c) ==> In(c, s, f) != [] }

  function Instances(draws: seq<Draw>): nat {
    if draws == [] then 0 else Instances(draws[..|draws| - 1]) + draws[|draws| - 1].instances
  }

  /** Every frame's instances in the one are fewer than every frame's in the other: the greatest is below the least. */
  predicate Below(a: Census, b: Census, s: Signature) {
    forall f, g :: f in FramesSeen(a) && g in FramesSeen(b) ==> Instances(In(a, s, f)) < Instances(In(b, s, g))
  }

  /** Steady in the effect's census and absent from the baseline. */
  predicate Added(a: Census, b: Census, s: Signature) { IsSteady(b, s) && !Present(a, s) }

  predicate Removed(a: Census, b: Census, s: Signature) { IsSteady(a, s) && !Present(b, s) }

  /** Steady in both, and the volume of instances moved one way. */
  predicate Changed(a: Census, b: Census, s: Signature) {
    IsSteady(a, s) && IsSteady(b, s) && (Below(a, b, s) || Below(b, a, s))
  }

  lemma {:induction false} SelectedIsPresent(c: Census, n: nat, s: Signature, f: nat)
    requires n <= |c.draws| && Select(c, n, s, f) != []
    ensures Present(c, s)
  {
    hide SignatureOf;
    if Select(c, n - 1, s, f) != [] {
      SelectedIsPresent(c, n - 1, s, f);
    }
  }

  lemma {:induction false} PresentIsSelected(c: Census, n: nat, i: nat)
    requires i < n <= |c.draws|
    ensures Select(c, n, SignatureOf(c.ids, c.draws[i]), c.draws[i].frame) != []
  {
    hide SignatureOf;
    if i < n - 1 {
      PresentIsSelected(c, n - 1, i);
    }
  }

  lemma {:induction false} IndexKeys(c: Census, out: Index, s: Signature)
    requires Indexed(c, |c.draws|, out)
    ensures s in out <==> Present(c, s)
    ensures s in out ==> forall f: nat :: f in out[s] <==> In(c, s, f) != []
  {
    hide SignatureOf;
    if s in out {
      var f :| f in out[s];
      assert Look(out, s, f) != [];
      SelectedIsPresent(c, |c.draws|, s, f);
      forall f: nat
        ensures f in out[s] <==> In(c, s, f) != []
      {
        assert Look(out, s, f) == Select(c, |c.draws|, s, f);
      }
    }
    if Present(c, s) {
      var i: nat :| i < |c.draws| && SignatureOf(c.ids, c.draws[i]) == s;
      PresentIsSelected(c, |c.draws|, i);
      assert Look(out, s, c.draws[i].frame) != [];
    }
  }

  /** The signatures whose frames include all of `frames`. */
  function SteadyIn(out: Index, frames: set<nat>): set<Signature> { set s | s in out && frames <= out[s].Keys }

  lemma {:induction false} SteadyInIs(c: Census, out: Index, s: Signature)
    requires Indexed(c, |c.draws|, out)
    ensures s in SteadyIn(out, FramesSeen(c)) <==> IsSteady(c, s)
  {
    hide SignatureOf;
    IndexKeys(c, out, s);
    if IsSteady(c, s) {
      var f :| f in FramesSeen(c);
      assert In(c, s, f) != [];
      SelectedIsPresent(c, |c.draws|, s, f);
    }
  }

  /** diff: what was added, removed and changed between a baseline and an effect. */
  method Diff(a: Census, b: Census) returns (added: set<Signature>, removed: set<Signature>, changed: set<Signature>)
    ensures forall s :: s in added <==> Added(a, b, s)
    ensures forall s :: s in removed <==> Removed(a, b, s)
    ensures forall s :: s in changed <==> Changed(a, b, s)
  {
    hide IsSteady, Present, Below, FramesSeen, Indexed, SteadyIn;
    var aSigs := BySignature(a);
    var bSigs := BySignature(b);
    forall s
      ensures (s in SteadyIn(aSigs, FramesSeen(a)) <==> IsSteady(a, s)) &&
        (s in SteadyIn(bSigs, FramesSeen(b)) <==> IsSteady(b, s))
      ensures (s in aSigs <==> Present(a, s)) && (s in bSigs <==> Present(b, s))
    {
      SteadyInIs(a, aSigs, s);
      SteadyInIs(b, bSigs, s);
      IndexKeys(a, aSigs, s);
      IndexKeys(b, bSigs, s);
    }
    added := SteadyIn(bSigs, FramesSeen(b)) - aSigs.Keys;
    removed := SteadyIn(aSigs, FramesSeen(a)) - bSigs.Keys;
    changed := set s | s in SteadyIn(aSigs, FramesSeen(a)) * SteadyIn(bSigs, FramesSeen(b)) && (Below(a, b, s) ||
        Below(b, a, s));
  }

  // ---------------------------------------------------------------- laws of the diff

  /** Swapping the captures swaps what was added and what was removed, and keeps what changed. */
  lemma SwapSwaps(a: Census, b: Census, s: Signature)
    ensures Added(a, b, s) <==> Removed(b, a, s)
    ensures Changed(a, b, s) <==> Changed(b, a, s)
  {
    hide IsSteady, Below, Present;
  }

  /** A capture does not differ from itself. */
  lemma {:induction false} SelfDiffIsEmpty(c: Census, s: Signature)
    ensures !Added(c, c, s) && !Removed(c, c, s) && !Changed(c, c, s)
  {
    hide SignatureOf, Instances;
    var f :| f in FramesSeen(c);
    if IsSteady(c, s) {
      assert In(c, s, f) != [];
      SelectedIsPresent(c, |c.draws|, s, f);
    }
    assert !(Instances(In(c, s, f)) < Instances(In(c, s, f)));
  }

  /** Draw by draw the two captures mean the same, though their tokens may differ. */
  ghost predicate SameMeaning(c: Census, c': Census) {
    |c.draws| == |c'.draws| && c.frameLines == c'.frameLines &&
    forall i: nat :: i < |c.draws| ==> SignatureOf(c.ids, c.draws[i]) == SignatureOf(c'.ids, c'.draws[i]) &&
                                       c.draws[i].frame == c'.draws[i].frame &&
                                       c.draws[i].instances == c'.draws[i].instances
  }

  lemma {:induction false} SameSelection(c: Census, c': Census, n: nat, s: Signature, f: nat)
    requires SameMeaning(c, c') && n <= |c.draws|
    ensures |Select(c, n, s, f)| == |Select(c', n, s, f)| &&
      Instances(Select(c, n, s, f)) == Instances(Select(c', n, s, f))
  {
    hide SignatureOf, Select, Instances;
    if n > 0 {
      SameSelection(c, c', n - 1, s, f);
      SelectStep(c, n, s, f);
      SelectStep(c', n, s, f);
    } else {
      NothingSelected(c, s, f);
      NothingSelected(c', s, f);
    }
  }

  lemma NothingSelected(c: Census, s: Signature, f: nat)
    ensures Select(c, 0, s, f) == [] && Instances([]) == 0
  {
  }

  lemma {:induction false} SelectStep(c: Census, n: nat, s: Signature, f: nat)
    requires 0 < n <= |c.draws|
    ensures var d := c.draws[n - 1]; var here := SignatureOf(c.ids, d) == s && d.frame == f;
      |Select(c, n, s, f)| == |Select(c, n - 1, s, f)| + (if here then 1 else 0) &&
      Instances(Select(c, n, s, f)) == Instances(Select(c, n - 1, s, f)) + (if here then d.instances else 0)
  {
    hide SignatureOf;
    var before := Select(c, n - 1, s, f);
    assert (before + [c.draws[n - 1]])[..|before|] == before;
    assert before + [] == before;
  }

  lemma {:induction false} SameView(c: Census, c': Census, s: Signature)
    requires SameMeaning(c, c')
    ensures FramesSeen(c) == FramesSeen(c') && (Present(c, s) <==> Present(c', s)) &&
      (IsSteady(c, s) <==> IsSteady(c', s))
    ensures forall f: nat :: Instances(In(c, s, f)) == Instances(In(c', s, f))
  {
    hide SignatureOf;
    assert (set i: nat | i < |c.draws| :: c.draws[i].frame) == (set i: nat | i < |c'.draws| :: c'.draws[i].frame);
    forall f: nat
      ensures |In(c, s, f)| == |In(c', s, f)| && Instances(In(c, s, f)) == Instances(In(c', s, f))
    {
      SameSelection(c, c', |c.draws|, s, f);
    }
  }

  /** A capture that means the same differs from any other in the same ways. */
  lemma {:induction false} MeaningDecides(a: Census, a': Census, b: Census, s: Signature)
    requires SameMeaning(a, a')
    ensures (Added(a, b, s) <==> Added(a', b, s)) && (Removed(a, b, s) <==> Removed(a', b, s)) &&
      (Changed(a, b, s) <==> Changed(a', b, s))
    ensures (Added(b, a, s) <==> Added(b, a', s)) && (Removed(b, a, s) <==> Removed(b, a', s)) &&
      (Changed(b, a, s) <==> Changed(b, a', s))
  {
    hide SignatureOf, SameMeaning, FramesSeen, Present, IsSteady, In;
    SameView(a, a', s);
  }

  // ---------------------------------------------------------------- renumbering and inlining

  function Renumber(t: Token, rho: nat -> nat): Token { if t.Ref? then Ref(rho(t.ordinal)) else t }

  function RenumberAll(slots: seq<Token>, rho: nat -> nat): (r: seq<Token>)
    ensures |r| == |slots| && forall i: nat :: i < |slots| ==> r[i] == Renumber(slots[i], rho)
  {
    seq(|slots|, i requires 0 <= i < |slots| => Renumber(slots[i], rho))
  }

  function RenumberDraw(d: Draw, rho: nat -> nat): Draw {
    d.(target := Renumber(d.target, rho), depth := Renumber(d.depth, rho), constants := Renumber(d.constants, rho),
        slots := RenumberAll(d.slots, rho))
  }

  ghost predicate Injective(rho: nat -> nat) { forall j: nat, k: nat :: rho(j) == rho(k) ==> j == k }

  /** c' is c with every ordinal replaced. */
  ghost predicate Renumbered(c: Census, c': Census, rho: nat -> nat) {
    Injective(rho) && |c'.draws| == |c.draws| && c'.frameLines == c.frameLines &&
    (forall i: nat :: i < |c.draws| ==> c'.draws[i] == RenumberDraw(c.draws[i], rho)) &&
    (forall k: nat :: (k in c.ids <==> rho(k) in c'.ids) && (k in c.ids ==> c'.ids[rho(k)] == c.ids[k]))
  }

  /** Other ordinals for the same objects change nothing in the diff. */
  lemma {:induction false} RenumberingIsInvisible(c: Census, c': Census, rho: nat -> nat)
    requires Renumbered(c, c', rho)
    ensures SameMeaning(c, c')
  {
    forall i: nat | i < |c.draws|
      ensures SignatureOf(c.ids, c.draws[i]) == SignatureOf(c'.ids, c'.draws[i])
    {
      var d := c.draws[i];
      assert ResolveAll(c.ids, d.slots) == ResolveAll(c'.ids, RenumberAll(d.slots, rho));
    }
  }

  /** The token as it is, or spelled out in place where its ordinal has a meaning. */
  ghost predicate Spelled(ids: map<nat, string>, t: Token, t': Token) {
    t' == t || (t.Ref? && t.ordinal in ids && t' == Inline(ids[t.ordinal]))
  }

  ghost predicate SpelledDraw(ids: map<nat, string>, d: Draw, d': Draw) {
    d' == d.(target := d'.target, depth := d'.depth, constants := d'.constants, slots := d'.slots) &&
    |d'.slots| == |d.slots| &&
    Spelled(ids, d.target, d'.target) && Spelled(ids, d.depth, d'.depth) &&
    forall i: nat :: i < |d.slots| ==> Spelled(ids, d.slots[i], d'.slots[i])
  }

  /** Spelling out objects in place, as a full intern table makes the capture do, changes nothing in the diff. */
  lemma {:induction false} InliningIsInvisible(c: Census, c': Census)
    requires c'.ids == c.ids && c'.frameLines == c.frameLines && |c'.draws| == |c.draws|
    requires forall i: nat :: i < |c.draws| ==> SpelledDraw(c.ids, c.draws[i], c'.draws[i])
    ensures SameMeaning(c, c')
  {
    forall i: nat | i < |c.draws|
      ensures SignatureOf(c.ids, c.draws[i]) == SignatureOf(c'.ids, c'.draws[i]) &&
          c.draws[i].frame == c'.draws[i].frame && c.draws[i].instances == c'.draws[i].instances
    {
      assert SpelledDraw(c.ids, c.draws[i], c'.draws[i]);
      assert ResolveAll(c.ids, c.draws[i].slots) == ResolveAll(c.ids, c'.draws[i].slots);
    }
  }
}
