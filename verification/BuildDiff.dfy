/**
 The .text block map of tools/build_diff.py: one hash for each 4 KiB block, the blocks whose hashes differ, and the runs
 they form, reported as address ranges.
 */
module BuildDiff {
  import opened Prelude
  import opened Bytes
  import opened Fnv

  const BLOCK_SIZE: nat := 4096

  // ---------------------------------------------------------------- blocks

  /** How many blocks n bytes make. */
  function Blocks(n: nat, size: nat): nat
    requires size > 0
  {
    (n + size - 1) / size
  }

  /** The block that starts at a byte; the last may be short. */
  function BlockFrom(text: seq<byte>, start: nat, size: nat): seq<byte>
    requires start <= |text|
  {
    text[start..Least(start + size, |text|)]
  }

  lemma BlockStarts(n: nat, size: nat, i: nat)
    requires size > 0
    ensures i < Blocks(n, size) <==> i * size < n
  {
    var blocks := Blocks(n, size);
    assert blocks * size <= n + size - 1 < blocks * size + size;
    if i < blocks {
      assert i * size <= (blocks - 1) * size;
    } else {
      assert i * size >= blocks * size;
    }
  }

  function BlockAt(text: seq<byte>, size: nat, i: nat): seq<byte>
    requires size > 0 && i < Blocks(|text|, size)
  {
    BlockStarts(|text|, size, i);
    BlockFrom(text, i * size, size)
  }

  /** One hash for each block of the section. */
  function BlockHashes(text: seq<byte>, size: nat): (hashes: seq<state>)
    requires size > 0
  {
    seq(Blocks(|text|, size), i requires 0 <= i < Blocks(|text|, size) => Hash(BlockAt(text, size, i)))
  }

  /** text_block_hashes: the blocks hashed one after another. */
  method TextBlockHashes(text: seq<byte>) returns (hashes: seq<state>)
    ensures hashes == BlockHashes(text, BLOCK_SIZE)
  {
    hide Hash;
    hashes := [];
    var start := 0;
    while start < |text|
      invariant start == |hashes| * BLOCK_SIZE
      invariant |hashes| <= Blocks(|text|, BLOCK_SIZE)
      invariant forall i: nat :: i < |hashes| ==> hashes[i] == Hash(BlockAt(text, BLOCK_SIZE, i))
      decreases |text| - start
    {
      BlockStarts(|text|, BLOCK_SIZE, |hashes|);
      var h := Fnv1a64(BlockFrom(text, start, BLOCK_SIZE));
      hashes := hashes + [h];
      start := start + BLOCK_SIZE;
    }
    BlockStarts(|text|, BLOCK_SIZE, |hashes|);
  }

  /** The byte at p lies in block p / size. */
  lemma {:induction false} BlockOfByte(text: seq<byte>, size: nat, p: nat)
    requires size > 0 && p < |text|
    ensures var i := p / size;
      i < Blocks(|text|, size) && p - i * size < |BlockAt(text, size, i)| &&
      BlockAt(text, size, i)[p - i * size] == text[p]
  {
    var i := p / size;
    assert i * size <= p < i * size + size;
    BlockStarts(|text|, size, i);
  }

  // ---------------------------------------------------------------- changed blocks

  /** Block i is in one list only, or differs. */
  predicate BlockChanged(base: seq<state>, candidate: seq<state>, i: nat) {
    i >= |base| || i >= |candidate| || base[i] != candidate[i]
  }

  /** The indices below n of changed blocks, in order. */
  function Changed(base: seq<state>, candidate: seq<state>, n: nat): (changed: seq<nat>)
    ensures Ascending(changed) && forall i: nat :: i in changed <==> i < n && BlockChanged(base, candidate, i)
  {
    if n == 0 then []
    else
      var before := Changed(base, candidate, n - 1);
      assert forall a: nat :: a < |before| ==> before[a] in before;
      if BlockChanged(base, candidate, n - 1) then before + [n - 1] else before
  }

  ghost predicate Ascending(xs: seq<nat>) { forall a: nat, b: nat :: a < b < |xs| ==> xs[a] < xs[b] }

  function ChangedBlocks(base: seq<state>, candidate: seq<state>): seq<nat> {
    Changed(base, candidate, Greatest(|base|, |candidate|))
  }

  // ---------------------------------------------------------------- clusters

  datatype Cluster = Cluster(first: nat, last: nat)

  predicate Within(c: Cluster, x: nat) { c.first <= x <= c.last }

  ghost predicate Covered(clusters: seq<Cluster>, x: nat) { exists k: nat :: k < |clusters| && Within(clusters[k], x) }

  /** Runs in order, none empty, none that could be joined to the next. */
  ghost predicate Maximal(clusters: seq<Cluster>) {
    (forall k: nat :: k < |clusters| ==> clusters[k].first <= clusters[k].last) &&
    forall j: nat, k: nat :: j < k < |clusters| ==> clusters[j].last + 1 < clusters[k].first
  }

  /** _cluster_changed: each index extends the last run or begins another. */
  method ClusterChanged(changed: seq<nat>) returns (clusters: seq<Cluster>)
    requires Ascending(changed)
    ensures Maximal(clusters) && forall x: nat :: x in changed <==> Covered(clusters, x)
  {
    clusters := [];
    for n := 0 to |changed|
      invariant Maximal(clusters) && forall x: nat :: x in changed[..n] <==> Covered(clusters, x)
      invariant if n == 0 then clusters == [] else clusters != [] && clusters[|clusters| - 1].last == changed[n - 1]
    {
      var index := changed[n];
      var k := |clusters| - 1;
      assert n > 0 ==> changed[n - 1] < index;
      assert forall x: nat :: x in changed[..n + 1] <==> x in changed[..n] || x == index;
      if clusters != [] && index == clusters[k].last + 1 {
        ExtendCovers(clusters, index);
        clusters := clusters[k := Cluster(clusters[k].first, index)];
      } else {
        AppendCovers(clusters, Cluster(index, index));
        clusters := clusters + [Cluster(index, index)];
      }
    }
    assert changed[..|changed|] == changed;
  }

  lemma {:induction false} ExtendCovers(clusters: seq<Cluster>, index: nat)
    requires Maximal(clusters) && clusters != [] && clusters[|clusters| - 1].last + 1 == index
    ensures var k := |clusters| - 1; var longer := clusters[k := Cluster(clusters[k].first, index)];
      Maximal(longer) && forall x: nat :: Covered(longer, x) <==> Covered(clusters, x) || x == index
  {
    var k := |clusters| - 1;
    var longer := clusters[k := Cluster(clusters[k].first, index)];
    forall x: nat
      ensures Covered(longer, x) <==> Covered(clusters, x) || x == index
    {
      assert Within(longer[k], x) <==> Within(clusters[k], x) || x == index;
      if Covered(clusters, x) {
        var j: nat :| j < |clusters| && Within(clusters[j], x);
        assert Within(longer[j], x);
      }
      if Covered(longer, x) {
        var j: nat :| j < |longer| && Within(longer[j], x);
        assert j != k ==> Within(clusters[j], x);
      }
    }
  }

  lemma {:induction false} AppendCovers(clusters: seq<Cluster>, c: Cluster)
    ensures forall x: nat :: Covered(clusters + [c], x) <==> Covered(clusters, x) || Within(c, x)
  {
    var longer := clusters + [c];
    forall x: nat
      ensures Covered(longer, x) <==> Covered(clusters, x) || Within(c, x)
    {
      if Covered(clusters, x) {
        var j: nat :| j < |clusters| && Within(clusters[j], x);
        assert Within(longer[j], x);
      }
      if Within(c, x) {
        assert Within(longer[|clusters|], x);
      }
    }
  }

  /** The maximal runs of a set of indices are determined by it. */
  lemma {:induction false} ClustersAreUnique(a: seq<Cluster>, b: seq<Cluster>)
    requires Maximal(a) && Maximal(b) && forall x: nat :: Covered(a, x) <==> Covered(b, x)
    ensures a == b
  {
    if a == [] {
      if b != [] {
        assert Within(b[0], b[0].first);
        assert Covered(b, b[0].first);
      }
    } else {
      assert Within(a[0], a[0].first);
      assert Covered(a, a[0].first);
      FirstRunsAgree(a, b);
      RestCovers(a);
      RestCovers(b);
      forall x: nat
        ensures Covered(a[1..], x) <==> Covered(b[1..], x)
      {
        assert Covered(a, x) <==> Covered(b, x);
      }
      ClustersAreUnique(a[1..], b[1..]);
      assert a == [a[0]] + a[1..] && b == [b[0]] + b[1..];
    }
  }

  lemma {:induction false} RestCovers(a: seq<Cluster>)
    requires Maximal(a) && a != []
    ensures Maximal(a[1..]) && forall x: nat :: Covered(a[1..], x) <==> Covered(a, x) && !Within(a[0], x)
  {
    forall x: nat
      ensures Covered(a[1..], x) <==> Covered(a, x) && !Within(a[0], x)
    {
      if Covered(a[1..], x) {
        var k: nat :| k < |a[1..]| && Within(a[1..][k], x);
        assert Within(a[k + 1], x);
      }
      if Covered(a, x) && !Within(a[0], x) {
        var k: nat :| k < |a| && Within(a[k], x);
        assert Within(a[1..][k - 1], x);
      }
    }
  }

  lemma {:induction false} FirstRunsAgree(a: seq<Cluster>, b: seq<Cluster>)
    requires Maximal(a) && Maximal(b) && a != [] && b != [] && forall x: nat :: Covered(a, x) <==> Covered(b, x)
    ensures a[0] == b[0]
  {
    FirstRunInside(a, b);
    FirstRunInside(b, a);
  }

  lemma {:induction false} FirstRunInside(a: seq<Cluster>, b: seq<Cluster>)
    requires Maximal(a) && Maximal(b) && a != [] && b != [] && forall x: nat :: Covered(a, x) <==> Covered(b, x)
    ensures b[0].first <= a[0].first && (a[0].first == b[0].first ==> a[0].last <= b[0].last)
  {
    assert Within(a[0], a[0].first);
    assert Covered(a, a[0].first) && Covered(b, a[0].first);
    var k: nat :| k < |b| && Within(b[k], a[0].first);
    if a[0].first == b[0].first && b[0].last < a[0].last {
      var next := b[0].last + 1;
      assert Within(a[0], next);
      assert Covered(a, next) && Covered(b, next);
      var j: nat :| j < |b| && Within(b[j], next);
    }
  }

  // ---------------------------------------------------------------- the block map

  /** An address in the blocks of a run of a section at rva. */
  predicate InRange(rva: nat, c: Cluster, address: nat) {
    rva + 4096 * c.first <= address < rva + 4096 * (c.last + 1)
  }

  /** An address inside one of the reported ranges. */
  ghost predicate Reported(rva: nat, clusters: seq<Cluster>, address: nat) {
    exists k: nat :: k < |clusters| && InRange(rva, clusters[k], address)
  }

  /** Every block of the two sections differs in at most one byte. */
  ghost predicate OneByteABlock(base: seq<byte>, candidate: seq<byte>) {
    |base| == |candidate| &&
    forall i: nat :: i < Blocks(|base|, BLOCK_SIZE) ==>
      DifferAtMostOnce(BlockAt(base, BLOCK_SIZE, i), BlockAt(candidate, BLOCK_SIZE, i))
  }

  /** The runs reported for two versions of the section: the whole of the map. */
  method BlockMap(base: seq<byte>, candidate: seq<byte>) returns (changed: seq<nat>, clusters: seq<Cluster>)
    ensures changed == ChangedBlocks(BlockHashes(base, BLOCK_SIZE), BlockHashes(candidate, BLOCK_SIZE))
    ensures Maximal(clusters) && forall x: nat :: x in changed <==> Covered(clusters, x)
  {
    var baseHashes := TextBlockHashes(base);
    var candidateHashes := TextBlockHashes(candidate);
    changed := ChangedBlocks(baseHashes, candidateHashes);
    clusters := ClusterChanged(changed);
  }

  /**
   A changed block does differ. When no block differs in more than one byte the changed blocks are exactly those that
   differ: the hash misses none.
   */
  lemma {:induction false} ChangedBlocksDiffer(base: seq<byte>, candidate: seq<byte>, i: nat)
    requires |base| == |candidate| && i < Blocks(|base|, BLOCK_SIZE)
    ensures var changed := ChangedBlocks(BlockHashes(base, BLOCK_SIZE), BlockHashes(candidate, BLOCK_SIZE));
      (i in changed ==> BlockAt(base, BLOCK_SIZE, i) != BlockAt(candidate, BLOCK_SIZE, i)) &&
      (OneByteABlock(base, candidate) ==>
        (i in changed <==> BlockAt(base, BLOCK_SIZE, i) != BlockAt(candidate, BLOCK_SIZE, i)))
  {
    hide Hash, BlockAt, Blocks;
    if OneByteABlock(base, candidate) {
      HashSeparates(BlockAt(base, BLOCK_SIZE, i), BlockAt(candidate, BLOCK_SIZE, i));
    }
  }

  lemma RangeHolds(rva: nat, c: Cluster, p: nat)
    ensures InRange(rva, c, rva + p) <==> Within(c, p / BLOCK_SIZE)
  {
  }

  /** For a section that has not moved, an address is reported exactly when its block is changed. */
  lemma {:induction false} ReportedIff(rva: nat, clusters: seq<Cluster>, changed: seq<nat>, p: nat)
    requires forall x: nat :: x in changed <==> Covered(clusters, x)
    ensures Reported(rva, clusters, rva + p) <==> p / BLOCK_SIZE in changed
  {
    hide InRange, Within;
    forall k: nat | k < |clusters|
      ensures InRange(rva, clusters[k], rva + p) <==> Within(clusters[k], p / BLOCK_SIZE)
    {
      RangeHolds(rva, clusters[k], p);
    }
    assert p / BLOCK_SIZE in changed <==> Covered(clusters, p / BLOCK_SIZE);
  }

  /** When no block differs in more than one byte, the address of every differing byte is in a reported range. */
  lemma {:induction false} EveryDifferenceIsReported(rva: nat, base: seq<byte>, candidate: seq<byte>, changed: seq<nat>,
      clusters: seq<Cluster>, p: nat)
    requires OneByteABlock(base, candidate) && p < |base| && base[p] != candidate[p]
    requires changed == ChangedBlocks(BlockHashes(base, BLOCK_SIZE), BlockHashes(candidate, BLOCK_SIZE))
    requires forall x: nat :: x in changed <==> Covered(clusters, x)
    ensures Reported(rva, clusters, rva + p)
  {
    hide Hash, Blocks, Reported, Covered, OneByteABlock, BlockHashes, ChangedBlocks;
    assert |base| == |candidate| by {
      SameSize(base, candidate);
    }
    BlockOfByte(base, BLOCK_SIZE, p);
    BlockOfByte(candidate, BLOCK_SIZE, p);
    ChangedBlocksDiffer(base, candidate, p / BLOCK_SIZE);
    ReportedIff(rva, clusters, changed, p);
  }

  lemma SameSize(base: seq<byte>, candidate: seq<byte>)
    requires OneByteABlock(base, candidate)
    ensures |base| == |candidate|
  {
  }

  /** One of the two has another byte at p, or one at all. */
  predicate DiffersAt(a: seq<byte>, b: seq<byte>, p: nat) {
    (p < |a| || p < |b|) && (p < |a| && p < |b| ==> a[p] != b[p])
  }

  lemma {:induction false} DifferSomewhere(a: seq<byte>, b: seq<byte>) returns (q: nat)
    requires a != b
    ensures DiffersAt(a, b, q)
  {
    if |a| < |b| {
      q := |a|;
    } else if |b| < |a| {
      q := |b|;
    } else {
      q :| q < |a| && a[q] != b[q];
    }
  }

  /**
   Every reported block holds a place where the texts differ, whatever differs elsewhere and however long they are.
   */
  lemma {:induction false} NothingElseIsReported(base: seq<byte>, candidate: seq<byte>, i: nat) returns (p: nat)
    requires i in ChangedBlocks(BlockHashes(base, BLOCK_SIZE), BlockHashes(candidate, BLOCK_SIZE))
    ensures p / BLOCK_SIZE == i && DiffersAt(base, candidate, p)
  {
    hide Hash, BlockAt, Blocks;
    BlockStarts(|base|, BLOCK_SIZE, i);
    BlockStarts(|candidate|, BLOCK_SIZE, i);
    if i < Blocks(|base|, BLOCK_SIZE) && i < Blocks(|candidate|, BLOCK_SIZE) {
      var a, b := BlockAt(base, BLOCK_SIZE, i), BlockAt(candidate, BLOCK_SIZE, i);
      assert a != b;
      var q := DifferSomewhere(a, b);
      p := i * BLOCK_SIZE + q;
      InBlock(base, candidate, i, q);
    } else {
      p := i * BLOCK_SIZE;
    }
  }

  lemma {:induction false} InBlock(base: seq<byte>, candidate: seq<byte>, i: nat, q: nat)
    requires i < Blocks(|base|, BLOCK_SIZE) && i < Blocks(|candidate|, BLOCK_SIZE)
    requires DiffersAt(BlockAt(base, BLOCK_SIZE, i), BlockAt(candidate, BLOCK_SIZE, i), q)
    ensures (i * BLOCK_SIZE + q) / BLOCK_SIZE == i && DiffersAt(base, candidate, i * BLOCK_SIZE + q)
  {
    BlockStarts(|base|, BLOCK_SIZE, i);
    BlockStarts(|candidate|, BLOCK_SIZE, i);
  }

  // ---------------------------------------------------------------- the targets

  datatype Target = Unmappable | Captured(bytes: seq<byte>)

  datatype Verdict = Gone | Unreliable | Match | Different(first: nat, count: nat)

  datatype Stats = Stats(gone: nat, unreliable: nat, same: nat, changed: nat, blocks: nat)

  /** How many places differ among the first n. */
  function Differences(a: seq<byte>, b: seq<byte>, n: nat): (count: nat)
    requires n <= |a| && |a| == |b|
    ensures count <= n
  {
    if n == 0 then 0 else Differences(a, b, n - 1) + if a[n - 1] != b[n - 1] then 1 else 0
  }

  lemma {:induction false} DifferencesAre(a: seq<byte>, b: seq<byte>, n: nat)
    requires n <= |a| && |a| == |b|
    ensures Differences(a, b, n) == |set i: nat | i < n && a[i] != b[i]|
  {
    if n > 0 {
      DifferencesAre(a, b, n - 1);
      var before := set i: nat | i < n - 1 && a[i] != b[i];
      assert (set i: nat | i < n && a[i] != b[i]) == if a[n - 1] != b[n - 1] then before + {n - 1} else before;
    }
  }

  /** The places where two bodies of one size differ: the first, and how many. */
  method Diff(a: seq<byte>, b: seq<byte>) returns (v: Verdict)
    requires |a| == |b|
    ensures a == b ==> v == Match
    ensures a != b ==>
      v.Different? && v.first < |a| && a[v.first] != b[v.first] && a[..v.first] == b[..v.first] &&
      v.count == Differences(a, b, |a|)
  {
    var first: nat, count: nat := |a|, 0;
    for i := 0 to |a|
      invariant count == Differences(a, b, i) && first <= |a|
      invariant if first < |a| then first < i && a[first] != b[first] && a[..first] == b[..first] else a[..i] == b[..i]
    {
      if a[i] != b[i] {
        count := count + 1;
        if first == |a| {
          first := i;
        }
      }
    }
    assert a[..|a|] == a && b[..|b|] == b;
    v := if first == |a| then Match else Different(first, count);
  }

  /** What the comparison says of a target whose body in the candidate is `now`, if it is mapped there. */
  predicate Judged(t: Target, now: Target, layoutSame: bool, v: Verdict) {
    match v
    case Gone => t.Unmappable? || now.Unmappable?
    case Unreliable => t.Captured? && now.Captured? && !layoutSame
    case Match => t.Captured? && now == t && layoutSame
    case Different(first, count) =>
      t.Captured? && now.Captured? && layoutSame && first < |t.bytes| && |now.bytes| == |t.bytes| &&
      t.bytes[first] != now.bytes[first] &&
      t.bytes[..first] == now.bytes[..first] && count == Differences(now.bytes, t.bytes, |t.bytes|)
  }

  /** The verdict of one target. */
  method JudgeTarget(t: Target, now: Target, layoutSame: bool) returns (v: Verdict)
    requires t.Captured? && now.Captured? ==> |t.bytes| == |now.bytes|
    ensures Judged(t, now, layoutSame, v)
  {
    if t.Unmappable? || now.Unmappable? {
      return Gone;
    }
    if !layoutSame {
      return Unreliable;
    }
    v := Diff(now.bytes, t.bytes);
  }

  function Tally(s: Stats, v: Verdict): Stats {
    match v
    case Gone => s.(gone := s.gone + 1)
    case Unreliable => s.(unreliable := s.unreliable + 1)
    case Match => s.(same := s.same + 1)
    case Different(_, _) => s.(changed := s.changed + 1)
  }

  /** How many verdicts are of a kind. */
  function HowMany(verdicts: seq<Verdict>, kind: Verdict -> bool): (n: nat)
    ensures n == 0 <==> forall i: nat :: i < |verdicts| ==> !kind(verdicts[i])
  {
    if verdicts == [] then 0
    else
      var last := |verdicts| - 1;
      HowMany(verdicts[..last], kind) + if kind(verdicts[last]) then 1 else 0
  }

  /** Each count is the number of verdicts of its kind. */
  predicate Counts(s: Stats, verdicts: seq<Verdict>) {
    s.gone == HowMany(verdicts, (v: Verdict) => v.Gone?) &&
    s.unreliable == HowMany(verdicts, (v: Verdict) => v.Unreliable?) &&
    s.same == HowMany(verdicts, (v: Verdict) => v.Match?) &&
    s.changed == HowMany(verdicts, (v: Verdict) => v.Different?)
  }

  lemma {:induction false} CountsStep(s: Stats, verdicts: seq<Verdict>, v: Verdict)
    requires Counts(s, verdicts)
    ensures Counts(Tally(s, v), verdicts + [v])
  {
    assert (verdicts + [v])[..|verdicts|] == verdicts;
  }

  /** Of every target there is one verdict, and the counts are theirs. */
  lemma {:induction false} CountsAddUp(s: Stats, verdicts: seq<Verdict>)
    requires Counts(s, verdicts)
    ensures s.gone + s.unreliable + s.same + s.changed == |verdicts|
  {
    KindsAddUp(verdicts);
  }

  lemma {:induction false} KindsAddUp(verdicts: seq<Verdict>)
    ensures HowMany(verdicts, (v: Verdict) => v.Gone?) + HowMany(verdicts, (v: Verdict) => v.Unreliable?) +
            HowMany(verdicts, (v: Verdict) => v.Match?) + HowMany(verdicts, (v: Verdict) => v.Different?) == |verdicts|
  {
    if verdicts != [] {
      KindsAddUp(verdicts[..|verdicts| - 1]);
    }
  }

  /** Targets mapped in both builds have bodies of one size. */
  ghost predicate Sized(targets: seq<Target>, now: seq<Target>) {
    |targets| == |now| &&
    forall i: nat :: i < |targets| && targets[i].Captured? && now[i].Captured? ==> |targets[i].bytes| == |now[i].bytes|
  }

  /** The verdicts of all targets, and the counts kept of them. */
  method JudgeTargets(targets: seq<Target>, now: seq<Target>, layoutSame: bool)
      returns (verdicts: seq<Verdict>, stats: Stats)
    requires Sized(targets, now)
    ensures |verdicts| == |targets|
    ensures forall i: nat :: i < |targets| ==> Judged(targets[i], now[i], layoutSame, verdicts[i])
    ensures Counts(stats, verdicts) && stats.blocks == 0
    ensures stats.gone + stats.unreliable + stats.same + stats.changed == |targets|
  {
    verdicts, stats := [], Stats(0, 0, 0, 0, 0);
    for i := 0 to |targets|
      invariant |verdicts| == i && forall x: nat :: x < i ==> Judged(targets[x], now[x], layoutSame, verdicts[x])
      invariant Counts(stats, verdicts) && stats.blocks == 0
    {
      var v := JudgeTarget(targets[i], now[i], layoutSame);
      CountsStep(stats, verdicts, v);
      verdicts, stats := verdicts + [v], Tally(stats, v);
    }
    CountsAddUp(stats, verdicts);
  }

  // ---------------------------------------------------------------- the conclusion

  datatype Summary = Unchanged | LayoutChanged | TargetsChanged | OutsideTargets | NoneDetected

  /** Some target is mapped in both builds. */
  ghost predicate SomeMapped(targets: seq<Target>, now: seq<Target>)
    requires |targets| == |now|
  {
    exists i: nat :: i < |targets| && targets[i].Captured? && now[i].Captured?
  }

  /** Some target is mapped in both builds and has another body. */
  ghost predicate SomeDiffers(targets: seq<Target>, now: seq<Target>)
    requires |targets| == |now|
  {
    exists i: nat :: i < |targets| && targets[i].Captured? && now[i].Captured? && targets[i] != now[i]
  }

  /** Some target counts as changed, or would if the layout let it be compared. */
  ghost predicate SomeReported(targets: seq<Target>, now: seq<Target>, layoutSame: bool)
    requires |targets| == |now|
  {
    if layoutSame then SomeDiffers(targets, now) else SomeMapped(targets, now)
  }

  /** The blocks of another hash, where both builds have a text. */
  function BlocksOf(text: Option<(seq<byte>, seq<byte>)>): seq<nat> {
    if text.None? then []
    else ChangedBlocks(BlockHashes(text.value.0, BLOCK_SIZE), BlockHashes(text.value.1, BLOCK_SIZE))
  }

  predicate BlocksChanged(text: Option<(seq<byte>, seq<byte>)>) { BlocksOf(text) != [] }

  /** Where a target lies. */
  datatype Place = Place(rva: nat, size: nat)

  predicate Covers(place: Place, address: nat) { place.rva <= address < place.rva + place.size }

  function BytesAt(place: Place, rva: nat, text: seq<byte>): seq<byte>
    requires rva <= place.rva && place.rva + place.size <= rva + |text|
  {
    text[place.rva - rva..place.rva - rva + place.size]
  }

  /** The targets mapped in both builds are the bytes at their places in the two texts, which start at rva. */
  ghost predicate InText(places: seq<Place>, rva: nat, base: seq<byte>, candidate: seq<byte>, targets: seq<Target>,
      now: seq<Target>)
  {
    |places| == |targets| == |now| &&
    forall i: nat :: i < |targets| && targets[i].Captured? && now[i].Captured? ==>
      rva <= places[i].rva && places[i].rva + places[i].size <= rva + |base| &&
      places[i].rva + places[i].size <= rva + |candidate| &&
      targets[i].bytes == BytesAt(places[i], rva, base) && now[i].bytes == BytesAt(places[i], rva, candidate)
  }

  /** The address lies in a target that is mapped in both builds. */
  ghost predicate InTarget(places: seq<Place>, targets: seq<Target>, now: seq<Target>, address: nat)
    requires |places| == |targets| == |now|
  {
    exists i: nat :: i < |targets| && targets[i].Captured? && now[i].Captured? && Covers(places[i], address)
  }

  /**
   The targets are as they were exactly when every differing byte of the text lies outside all that are mapped: then
   what the block map finds is indeed outside the target list.
   */
  lemma OutsideIsOutside(places: seq<Place>, rva: nat, base: seq<byte>, candidate: seq<byte>, targets: seq<Target>,
      now: seq<Target>)
    requires InText(places, rva, base, candidate, targets, now)
    ensures !SomeDiffers(targets, now) <==>
      forall p: nat :: p < |base| && p < |candidate| && base[p] != candidate[p] ==>
        !InTarget(places, targets, now, rva + p)
  {
  }

  /**
   What the last line says: of the targets first, and of the text outside them only when they are as they were; and
   nothing is looked at when the two builds have one timestamp and size.
   */
  method Compare(identity: bool, targets: seq<Target>, now: seq<Target>, layoutSame: bool,
      text: Option<(seq<byte>, seq<byte>)>)
      returns (verdicts: seq<Verdict>, stats: Stats, conclusion: Summary)
    requires Sized(targets, now)
    ensures Counts(stats, verdicts) && |verdicts| == if identity then 0 else |targets|
    ensures !identity ==> forall i: nat :: i < |targets| ==> Judged(targets[i], now[i], layoutSame, verdicts[i])
    ensures stats.blocks == if identity then 0 else |BlocksOf(text)|
    ensures conclusion == Unchanged <==> identity
    ensures conclusion == LayoutChanged <==> !identity && !layoutSame && SomeMapped(targets, now)
    ensures conclusion == TargetsChanged <==> !identity && layoutSame && SomeDiffers(targets, now)
    ensures conclusion == NoneDetected <==>
      !identity && !BlocksChanged(text) && !SomeReported(targets, now, layoutSame)
  {
    hide Judged, Counts, BlockHashes, ChangedBlocks;
    if identity {
      NoCounts();
      return [], Stats(0, 0, 0, 0, 0), Unchanged;
    }
    verdicts, stats := JudgeTargets(targets, now, layoutSame);
    VerdictsTell(targets, now, layoutSame, verdicts, stats);
    if text.Some? {
      var changed, _ := BlockMap(text.value.0, text.value.1);
      CountsWithBlocks(stats, verdicts, |changed|);
      stats := stats.(blocks := |changed|);
    }
    conclusion := if stats.unreliable != 0 then LayoutChanged
                  else if stats.changed != 0 then TargetsChanged
                  else if stats.blocks != 0 then OutsideTargets
                  else NoneDetected;
  }

  lemma NoCounts()
    ensures Counts(Stats(0, 0, 0, 0, 0), [])
  {
  }

  lemma CountsWithBlocks(s: Stats, verdicts: seq<Verdict>, n: nat)
    requires Counts(s, verdicts)
    ensures Counts(s.(blocks := n), verdicts)
  {
  }

  lemma {:induction false} VerdictsTell(targets: seq<Target>, now: seq<Target>, layoutSame: bool,
      verdicts: seq<Verdict>, stats: Stats)
    requires |targets| == |now| == |verdicts| && Counts(stats, verdicts)
    requires forall i: nat :: i < |targets| ==> Judged(targets[i], now[i], layoutSame, verdicts[i])
    ensures stats.unreliable != 0 <==> !layoutSame && SomeMapped(targets, now)
    ensures stats.changed != 0 <==> layoutSame && SomeDiffers(targets, now)
  {
  }

  /** Of texts that differ in at most one byte a block, no change is found exactly in those that are the same. */
  lemma {:induction false} BlocksChangedIff(base: seq<byte>, candidate: seq<byte>)
    requires OneByteABlock(base, candidate)
    ensures BlocksChanged(Some((base, candidate))) <==> base != candidate
  {
    hide Hash, BlockHashes, Blocks, OneByteABlock, BlockAt;
    var changed := ChangedBlocks(BlockHashes(base, BLOCK_SIZE), BlockHashes(candidate, BLOCK_SIZE));
    SameSize(base, candidate);
    assert changed != [] ==> changed[0] in changed;
    if base != candidate {
      var p: nat :| p < |base| && base[p] != candidate[p];
      BlockOfByte(base, BLOCK_SIZE, p);
      BlockOfByte(candidate, BLOCK_SIZE, p);
      ChangedBlocksDiffer(base, candidate, p / BLOCK_SIZE);
      assert p / BLOCK_SIZE in changed;
    }
  }
}
