/**
 The draw-identity statistics of tools/draw_identity.py: how often a key names a draw within a frame, and how many of a
 frame's keys come back in the next one by content, by position and unambiguously.
 */
module DrawIdentity {
  import opened Prelude

  // ---------------------------------------------------------------- the keys

  /** A parsed draw line; a column the line did not carry is None. */
  datatype DrawLine = DrawLine(tag: string, kind: char, n: nat, i: nat, vh: Option<string>, vb: Option<string>,
      sd: Option<string>, offset: Option<string>, topology: Option<string>, c: Option<string>, ia: Option<string>,
      ib: Option<string>)

  datatype ShapeKey = ShapeKey(tag: string, kind: char, n: nat, i: nat, vh: Option<string>, vb: Option<string>,
      sd: Option<string>, offset: Option<string>, topology: Option<string>, c: Option<string>)

  datatype ArgsKey = ArgsKey(shape: ShapeKey, ia: Option<string>, ib: Option<string>)

  /** Resource tokens go through f, which is the identity within one census. */
  function KeyShape(f: Option<string> -> Option<string>, d: DrawLine): ShapeKey {
    ShapeKey(d.tag, d.kind, d.n, d.i, d.vh, f(d.vb), d.sd, d.offset, d.topology, f(d.c))
  }

  function KeyArgs(f: Option<string> -> Option<string>, d: DrawLine): ArgsKey {
    ArgsKey(KeyShape(f, d), d.ia, f(d.ib))
  }

  /**
   Two draws have one shape exactly when these ten columns agree, the vertex buffer and the constants as f has them.
   */
  lemma KeysSeparate(f: Option<string> -> Option<string>, a: DrawLine, b: DrawLine)
    ensures KeyShape(f, a) == KeyShape(f, b) <==>
      a.tag == b.tag && a.kind == b.kind && a.n == b.n && a.i == b.i && a.vh == b.vh && f(a.vb) == f(b.vb) &&
      a.sd == b.sd && a.offset == b.offset && a.topology == b.topology && f(a.c) == f(b.c)
    ensures KeyArgs(f, a) == KeyArgs(f, b) <==>
      KeyShape(f, a) == KeyShape(f, b) && a.ia == b.ia && f(a.ib) == f(b.ib)
  {
  }

  // ---------------------------------------------------------------- the statistics

  /** counts holds every key of the frame with its number of occurrences, and nothing else. */
  ghost predicate CountsOf<K(!new)>(keys: seq<K>, counts: map<K, nat>) {
    forall k :: multiset(keys)[k] == if k in counts then counts[k] else 0
  }

  ghost predicate Positive<K>(counts: map<K, nat>) {
    forall k :: k in counts ==> counts[k] > 0
  }

  function Get<K(==)>(counts: map<K, nat>, k: K): nat { if k in counts then counts[k] else 0 }

  method CountKeys<K(==,!new)>(keys: seq<K>) returns (counts: map<K, nat>)
    ensures CountsOf(keys, counts) && Positive(counts)
  {
    counts := map[];
    for i := 0 to |keys|
      invariant CountsOf(keys[..i], counts) && Positive(counts)
    {
      assert keys[..i + 1] == keys[..i] + [keys[i]];
      counts := counts[keys[i] := Get(counts, keys[i]) + 1];
    }
    assert keys[..|keys|] == keys;
  }

  /** The keys that occur. */
  function Distinct<K(==)>(keys: seq<K>): set<K> { set k | k in keys }

  function Occurs<K(==)>(keys: seq<K>, k: K): nat { multiset(keys)[k] }

  /** How many of the first n positions hold a key that occurs once in a, and once in b too when asked. */
  function OnceIn<K(==)>(a: seq<K>, b: seq<K>, both: bool, n: nat): nat
    requires n <= |a|
  {
    if n == 0 then 0
    else OnceIn(a, b, both, n - 1) + if Occurs(a, a[n - 1]) == 1 && (both ==> Occurs(b, a[n - 1]) == 1) then 1 else 0
  }

  function Unique<K(==)>(keys: seq<K>): nat { OnceIn(keys, [], false, |keys|) }

  function Usable<K(==)>(a: seq<K>, b: seq<K>): nat { OnceIn(a, b, true, |a|) }

  /** The occurrences two frames share. */
  function Recur<K(==)>(a: seq<K>, b: seq<K>): nat { |multiset(a) * multiset(b)| }

  /** The positions, among the first n, where two frames hold the same key. */
  function SamePlace<K(==)>(a: seq<K>, b: seq<K>, n: nat): nat
    requires n <= |a| && n <= |b|
  {
    if n == 0 then 0 else SamePlace(a, b, n - 1) + if a[n - 1] == b[n - 1] then 1 else 0
  }

  function Positional<K(==)>(a: seq<K>, b: seq<K>): nat { SamePlace(a, b, Least(|a|, |b|)) }

  /** The key at i is at no other place. */
  ghost predicate Alone<K(!new)>(keys: seq<K>, i: nat)
    requires i < |keys|
  {
    forall j: nat :: j < |keys| && j != i ==> keys[j] != keys[i]
  }

  lemma {:induction false} OccursOnce<K(!new)>(keys: seq<K>, i: nat)
    requires i < |keys|
    ensures Occurs(keys, keys[i]) == 1 <==> Alone(keys, i)
  {
    var head, tail, k := keys[..i], keys[i + 1..], keys[i];
    assert keys == head + [k] + tail;
    if Occurs(keys, k) == 1 {
      forall j: nat | j < |keys| && j != i
        ensures keys[j] != k
      {
        assert keys[j] in head + tail by {
          assert keys[j] == (head + tail)[if j < i then j else j - 1];
        }
      }
    }
    if Alone(keys, i) {
      assert forall j: nat :: j < |head| ==> head[j] == keys[j];
      assert forall j: nat :: j < |tail| ==> tail[j] == keys[i + 1 + j];
      assert k !in head && k !in tail;
    }
  }

  /** The key at i of a is at just one place of b. */
  ghost predicate OneMatch<K(!new)>(a: seq<K>, b: seq<K>, i: nat)
    requires i < |a|
  {
    exists j: nat :: j < |b| && b[j] == a[i] && Alone(b, j)
  }

  lemma {:induction false} MatchesOnce<K(!new)>(a: seq<K>, b: seq<K>, i: nat)
    requires i < |a|
    ensures Occurs(b, a[i]) == 1 <==> OneMatch(a, b, i)
  {
    hide Occurs;
    if Occurs(b, a[i]) == 1 {
      assert a[i] in b by {
        OccursIn(b, a[i]);
      }
      var j: nat :| j < |b| && b[j] == a[i];
      OccursOnce(b, j);
    }
    if OneMatch(a, b, i) {
      var j: nat :| j < |b| && b[j] == a[i] && Alone(b, j);
      OccursOnce(b, j);
    }
  }

  lemma OccursIn<K>(keys: seq<K>, k: K)
    requires Occurs(keys, k) > 0
    ensures k in keys
  {
  }

  ghost function OncePlaces<K(!new)>(a: seq<K>, b: seq<K>, both: bool, n: nat): set<nat>
    requires n <= |a|
  {
    set i: nat | i < n && Alone(a, i) && (both ==> OneMatch(a, b, i))
  }

  lemma {:induction false} OnceInIs<K(!new)>(a: seq<K>, b: seq<K>, both: bool, n: nat)
    requires n <= |a|
    ensures OnceIn(a, b, both, n) == |OncePlaces(a, b, both, n)|
  {
    hide Alone, OneMatch, Occurs;
    if n > 0 {
      OnceInIs(a, b, both, n - 1);
      OccursOnce(a, n - 1);
      MatchesOnce(a, b, n - 1);
      PlacesStep(a, b, both, n - 1);
      hide OncePlaces;
    }
  }

  lemma PlacesStep<K(!new)>(a: seq<K>, b: seq<K>, both: bool, n: nat)
    requires n < |a|
    ensures |OncePlaces(a, b, both, n + 1)| ==
      |OncePlaces(a, b, both, n)| + if Alone(a, n) && (both ==> OneMatch(a, b, n)) then 1 else 0
  {
    hide Alone, OneMatch;
    var before := OncePlaces(a, b, both, n);
    assert n !in before;
    assert OncePlaces(a, b, both, n + 1) ==
      if Alone(a, n) && (both ==> OneMatch(a, b, n)) then before + {n} else before;
  }

  lemma {:induction false} SamePlaceIs<K(!new)>(a: seq<K>, b: seq<K>, n: nat)
    requires n <= |a| && n <= |b|
    ensures SamePlace(a, b, n) == |set i: nat | i < n && a[i] == b[i]|
  {
    if n > 0 {
      SamePlaceIs(a, b, n - 1);
      SamePlaceStep(a, b, n - 1);
    }
  }

  lemma SamePlaceStep<K(!new)>(a: seq<K>, b: seq<K>, n: nat)
    requires n < |a| && n < |b|
    ensures |set i: nat | i < n + 1 && a[i] == b[i]| ==
      |set i: nat | i < n && a[i] == b[i]| + if a[n] == b[n] then 1 else 0
  {
    var before := set i: nat | i < n && a[i] == b[i];
    assert n !in before;
    assert (set i: nat | i < n + 1 && a[i] == b[i]) == if a[n] == b[n] then before + {n} else before;
  }

  /** What is counted are places: of keys found nowhere else, of such keys matched once, and of equal keys. */
  lemma {:induction false} CountsArePlaces<K(!new)>(a: seq<K>, b: seq<K>)
    ensures Unique(a) == |set i: nat | i < |a| && Alone(a, i)|
    ensures Usable(a, b) == |set i: nat | i < |a| && Alone(a, i) && OneMatch(a, b, i)|
    ensures Positional(a, b) == |set i: nat | i < |a| && i < |b| && a[i] == b[i]|
  {
    hide Alone, OneMatch;
    OnceInIs(a, [], false, |a|);
    OnceInIs(a, b, true, |a|);
    SamePlaceIs(a, b, Least(|a|, |b|));
    assert OncePlaces(a, [], false, |a|) == set i: nat | i < |a| && Alone(a, i);
    assert OncePlaces(a, b, true, |a|) == set i: nat | i < |a| && Alone(a, i) && OneMatch(a, b, i);
    assert (set i: nat | i < Least(|a|, |b|) && a[i] == b[i]) == set i: nat | i < |a| && i < |b| && a[i] == b[i];
  }

  method FrameStats<K(==,!new)>(keys: seq<K>) returns (count: nat, distinct: nat, unique: nat)
    ensures count == |keys| && distinct == |Distinct(keys)| && unique == Unique(keys)
  {
    var counts := CountKeys(keys);
    unique := 0;
    for i := 0 to |keys|
      invariant unique == OnceIn(keys, [], false, i)
    {
      assert keys[i] in multiset(keys);
      if Get(counts, keys[i]) == 1 {
        unique := unique + 1;
      }
    }
    count := |keys|;
    distinct := |counts.Keys|;
    assert counts.Keys == Distinct(keys) by {
      forall k
        ensures k in counts <==> k in keys
      {
        assert k in keys <==> k in multiset(keys);
      }
    }
  }

  /** The sum of the lesser counts over a set of keys. */
  ghost function Shared<K(!new)>(a: multiset<K>, b: multiset<K>, keys: set<K>): multiset<K>
    ensures forall k :: Shared(a, b, keys)[k] == if k in keys then Least(a[k], b[k]) else 0
  {
    if keys == {} then multiset{}
    else
      var k :| k in keys;
      Shared(a, b, keys - {k})[k := Least(a[k], b[k])]
  }

  method SharedCount<K(==,!new)>(a: seq<K>, b: seq<K>, ca: map<K, nat>, cb: map<K, nat>) returns (recur: nat)
    requires CountsOf(a, ca) && CountsOf(b, cb)
    ensures recur == Recur(a, b)
  {
    recur := 0;
    var todo := ca.Keys;
    ghost var shared := multiset{};
    while todo != {}
      invariant todo <= ca.Keys && recur == |shared|
      invariant forall k :: shared[k] == if k in ca && k !in todo then Least(multiset(a)[k], multiset(b)[k]) else 0
    {
      var k :| k in todo;
      var n := Least(ca[k], Get(cb, k));
      recur := recur + n;
      shared := shared[k := n];
      todo := todo - {k};
    }
    assert shared == multiset(a) * multiset(b);
  }

  method PairStats<K(==,!new)>(a: seq<K>, b: seq<K>) returns (recur: nat, positional: nat, usable: nat)
    ensures recur == Recur(a, b) && positional == Positional(a, b) && usable == Usable(a, b)
  {
    var ca := CountKeys(a);
    var cb := CountKeys(b);
    recur := SharedCount(a, b, ca, cb);
    positional := 0;
    for p := 0 to Least(|a|, |b|)
      invariant positional == SamePlace(a, b, p)
    {
      if a[p] == b[p] {
        positional := positional + 1;
      }
    }
    usable := 0;
    for i := 0 to |a|
      invariant usable == OnceIn(a, b, true, i)
    {
      assert a[i] in multiset(a);
      if ca[a[i]] == 1 && Get(cb, a[i]) == 1 {
        usable := usable + 1;
      }
    }
  }

  // ---------------------------------------------------------------- laws of the pair statistics

  lemma SubsetCounts<K>(a: multiset<K>, b: multiset<K>)
    requires a <= b
    ensures |a| <= |b|
  {
    assert b == a + (b - a);
  }

  /** One more occurrence on the left is shared exactly when the right has one to spare. */
  lemma SharedWithOneMore<K>(x: multiset<K>, y: multiset<K>, k: K)
    ensures k in y ==> |(x + multiset{k}) * y| == |x * (y - multiset{k})| + 1
    ensures k !in y ==> |(x + multiset{k}) * y| == |x * y|
  {
    if k in y {
      assert (x + multiset{k}) * y == x * (y - multiset{k}) + multiset{k};
    } else {
      assert (x + multiset{k}) * y == x * y;
    }
  }

  lemma RecurIsSymmetric<K>(a: seq<K>, b: seq<K>)
    ensures Recur(a, b) == Recur(b, a) <= Least(|a|, |b|)
  {
    assert multiset(a) * multiset(b) == multiset(b) * multiset(a);
    SubsetCounts(multiset(a) * multiset(b), multiset(a));
    SubsetCounts(multiset(a) * multiset(b), multiset(b));
  }

  lemma {:induction false} SamePlaceIsShared<K>(a: seq<K>, b: seq<K>, n: nat)
    requires n <= |a| && n <= |b|
    ensures SamePlace(a, b, n) <= |multiset(a[..n]) * multiset(b[..n])|
  {
    if n > 0 {
      SamePlaceIsShared(a, b, n - 1);
      var x, y := multiset(a[..n - 1]), multiset(b[..n - 1]);
      assert a[..n] == a[..n - 1] + [a[n - 1]] && b[..n] == b[..n - 1] + [b[n - 1]];
      if a[n - 1] == b[n - 1] {
        SharedWithOneMore(x, y + multiset{a[n - 1]}, a[n - 1]);
        assert y + multiset{a[n - 1]} - multiset{a[n - 1]} == y;
      } else {
        SubsetCounts(x * y, multiset(a[..n]) * multiset(b[..n]));
      }
    }
  }

  /** A key that comes back at its place comes back. */
  lemma PositionalWithinRecur<K>(a: seq<K>, b: seq<K>)
    ensures Positional(a, b) <= Recur(a, b)
  {
    var n := Least(|a|, |b|);
    SamePlaceIsShared(a, b, n);
    assert a == a[..n] + a[n..] && b == b[..n] + b[n..];
    SubsetCounts(multiset(a[..n]) * multiset(b[..n]), multiset(a) * multiset(b));
  }

  /** The keys among the first n that occur once in both frames. */
  ghost function Picked<K>(a: seq<K>, b: seq<K>, n: nat): multiset<K>
    requires n <= |a|
  {
    if n == 0 then multiset{}
    else Picked(a, b, n - 1) + if Occurs(a, a[n - 1]) == 1 && Occurs(b, a[n - 1]) == 1 then multiset{a[n - 1]}
      else multiset{}
  }

  lemma {:induction false} PickedSize<K>(a: seq<K>, b: seq<K>, n: nat)
    requires n <= |a|
    ensures |Picked(a, b, n)| == OnceIn(a, b, true, n)
  {
    if n > 0 {
      PickedSize(a, b, n - 1);
    }
  }

  lemma {:induction false} PickedFromFrame<K>(a: seq<K>, b: seq<K>, n: nat, k: K)
    requires n <= |a|
    ensures Picked(a, b, n)[k] <= multiset(a[..n])[k]
  {
    if n > 0 {
      hide Occurs;
      PickedFromFrame(a, b, n - 1, k);
      assert a[..n] == a[..n - 1] + [a[n - 1]];
      assert multiset(a[..n])[k] == multiset(a[..n - 1])[k] + if k == a[n - 1] then 1 else 0;
    }
  }

  lemma {:induction false} PickedOnce<K>(a: seq<K>, b: seq<K>, n: nat, k: K)
    requires n <= |a| && k in Picked(a, b, n)
    ensures Occurs(a, k) == 1 && Occurs(b, k) == 1
  {
    if k in Picked(a, b, n - 1) {
      PickedOnce(a, b, n - 1, k);
    }
  }

  /** A key that names one draw of each frame comes back. */
  lemma UsableWithinRecur<K(!new)>(a: seq<K>, b: seq<K>)
    ensures Usable(a, b) <= Recur(a, b)
  {
    PickedSize(a, b, |a|);
    assert a[..|a|] == a;
    forall k
      ensures Picked(a, b, |a|)[k] <= (multiset(a) * multiset(b))[k]
    {
      PickedFromFrame(a, b, |a|, k);
      if k in Picked(a, b, |a|) {
        PickedOnce(a, b, |a|, k);
      }
    }
    SubsetCounts(Picked(a, b, |a|), multiset(a) * multiset(b));
  }

  // ---------------------------------------------------------------- a finer key

  /** Every key of the frame seen through f. */
  function Coarsen<A, B>(f: A -> B, keys: seq<A>): (r: seq<B>)
    ensures |r| == |keys| && forall i :: 0 <= i < |keys| ==> r[i] == f(keys[i])
  {
    seq(|keys|, i requires 0 <= i < |keys| => f(keys[i]))
  }

  lemma CoarsenAppend<A, B>(f: A -> B, keys: seq<A>, k: A)
    ensures Coarsen(f, keys + [k]) == Coarsen(f, keys) + [f(k)]
  {
  }

  /** b without its occurrence at i: one fewer of that key, here and seen through f. */
  lemma DropOne<A, B>(f: A -> B, b: seq<A>, i: nat)
    requires i < |b|
    ensures multiset(b[..i] + b[i + 1..]) == multiset(b) - multiset{b[i]}
    ensures multiset(Coarsen(f, b[..i] + b[i + 1..])) == multiset(Coarsen(f, b)) - multiset{f(b[i])}
  {
    assert b == b[..i] + [b[i]] + b[i + 1..];
    var c := Coarsen(f, b);
    assert c == c[..i] + [c[i]] + c[i + 1..];
    assert Coarsen(f, b[..i] + b[i + 1..]) == c[..i] + c[i + 1..];
  }

  lemma {:induction false} FinerRecur<A, B>(f: A -> B, a: seq<A>, b: seq<A>)
    ensures Recur(a, b) <= Recur(Coarsen(f, a), Coarsen(f, b))
    decreases |a|
  {
    if a != [] {
      var n := |a| - 1;
      var k, front := a[n], a[..n];
      assert a == front + [k];
      CoarsenAppend(f, front, k);
      var ca, cb := multiset(Coarsen(f, front)), multiset(Coarsen(f, b));
      SharedWithOneMore(multiset(front), multiset(b), k);
      SharedWithOneMore(ca, cb, f(k));
      if i :| 0 <= i < |b| && b[i] == k {
        DropOne(f, b, i);
        FinerRecur(f, front, b[..i] + b[i + 1..]);
        assert Coarsen(f, b)[i] == f(k);
      } else {
        FinerRecur(f, front, b);
        SubsetCounts(ca * cb, (ca + multiset{f(k)}) * cb);
      }
    }
  }

  lemma {:induction false} FinerSamePlace<A, B>(f: A -> B, a: seq<A>, b: seq<A>, n: nat)
    requires n <= |a| && n <= |b|
    ensures SamePlace(a, b, n) <= SamePlace(Coarsen(f, a), Coarsen(f, b), n)
  {
    if n > 0 {
      FinerSamePlace(f, a, b, n - 1);
    }
  }

  lemma {:induction false} FinerOccurs<A, B>(f: A -> B, keys: seq<A>, k: A)
    ensures Occurs(keys, k) <= Occurs(Coarsen(f, keys), f(k))
  {
    if keys != [] {
      var n := |keys| - 1;
      FinerOccurs(f, keys[..n], k);
      assert keys == keys[..n] + [keys[n]];
      CoarsenAppend(f, keys[..n], keys[n]);
    }
  }

  lemma {:induction false} FinerUnique<A, B>(f: A -> B, keys: seq<A>, n: nat)
    requires n <= |keys|
    ensures OnceIn(Coarsen(f, keys), [], false, n) <= OnceIn(keys, [], false, n)
  {
    if n > 0 {
      FinerUnique(f, keys, n - 1);
      FinerOccurs(f, keys, keys[n - 1]);
      assert keys[n - 1] in multiset(keys);
    }
  }

  lemma {:induction false} ImageIsNoLarger<A, B>(f: A -> B, s: set<A>)
    ensures |set k | k in s :: f(k)| <= |s|
  {
    if s != {} {
      var x :| x in s;
      ImageIsNoLarger(f, s - {x});
      var image := set k | k in s - {x} :: f(k);
      assert (set k | k in s :: f(k)) == image + {f(x)};
    }
  }

  /**
   Refining the key: fewer draws come back by content or by place, more keys are distinct and more name one draw.
   Nothing of the kind holds for usable keys, as the next two lemmas show.
   */
  lemma FinerKeys<A, B>(f: A -> B, a: seq<A>, b: seq<A>)
    ensures Recur(a, b) <= Recur(Coarsen(f, a), Coarsen(f, b))
    ensures Positional(a, b) <= Positional(Coarsen(f, a), Coarsen(f, b))
    ensures |Distinct(Coarsen(f, a))| <= |Distinct(a)|
    ensures Unique(Coarsen(f, a)) <= Unique(a)
  {
    FinerRecur(f, a, b);
    FinerSamePlace(f, a, b, Least(|a|, |b|));
    FinerUnique(f, a, |a|);
    ImageIsNoLarger(f, Distinct(a));
    var image, c := set k | k in Distinct(a) :: f(k), Coarsen(f, a);
    forall x
      ensures x in image <==> x in Distinct(c)
    {
      if x in c {
        var i :| 0 <= i < |c| && c[i] == x;
        assert a[i] in Distinct(a);
      }
      if x in image {
        var k :| k in a && f(k) == x;
        var i :| 0 <= i < |a| && a[i] == k;
        assert c[i] == x;
      }
    }
    assert image == Distinct(c);
  }

  lemma UsableCanRise()
    ensures exists f: int -> int, a, b :: Usable(Coarsen(f, a), Coarsen(f, b)) < Usable(a, b)
  {
    var f, a := (x: int) => 0, [1, 2];
    assert Coarsen(f, a) == [0, 0];
    assert Usable([1, 2], [1, 2]) == 2 && Usable([0, 0], [0, 0]) == 0;
  }

  lemma UsableCanFall()
    ensures exists f: int -> int, a, b :: Usable(a, b) < Usable(Coarsen(f, a), Coarsen(f, b))
  {
    var f, a, b := (x: int) => 0, [1], [2];
    assert Coarsen(f, a) == [0] && Coarsen(f, b) == [0];
    assert Usable([1], [2]) == 0 && Usable([0], [0]) == 1;
  }

  /** The args key refines the shape key, so the laws of finer keys hold between the two reports. */
  lemma ArgsAreFinerThanShapes(f: Option<string> -> Option<string>, a: seq<DrawLine>, b: seq<DrawLine>)
    ensures var sa, sb := Coarsen(d => KeyShape(f, d), a), Coarsen(d => KeyShape(f, d), b);
      var aa, ab := Coarsen(d => KeyArgs(f, d), a), Coarsen(d => KeyArgs(f, d), b);
      Recur(aa, ab) <= Recur(sa, sb) && Positional(aa, ab) <= Positional(sa, sb) &&
      |Distinct(sa)| <= |Distinct(aa)| && Unique(sa) <= Unique(aa)
  {
    var shape := (k: ArgsKey) => k.shape;
    var aa, ab := Coarsen(d => KeyArgs(f, d), a), Coarsen(d => KeyArgs(f, d), b);
    FinerKeys(shape, aa, ab);
    assert Coarsen(shape, aa) == Coarsen(d => KeyShape(f, d), a) &&
      Coarsen(shape, ab) == Coarsen(d => KeyShape(f, d), b);
  }
}
