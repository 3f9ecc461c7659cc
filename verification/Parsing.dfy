/**
 File formats as pairs of a parser and a writer, closed under the ways a file combines them, and the stream the
 imperative readers advance.
 */
module Parsing {
  import opened Prelude
  import opened Bytes

  /** An item and the bytes after it, or the error of the format. */
  type Parsed<+T, +E> = Result<(T, seq<byte>), E>

  /** A format: how an item is parsed, which items it can hold, and how they are written. */
  datatype Codec<!T, !E> = Codec(parse: seq<byte> -> Parsed<T, E>, ok: T -> bool, write: T -> seq<byte>)

  /** A writable item is read back, whatever follows it. */
  ghost predicate Reads<T, E>(c: Codec<T, E>, x: T, rest: seq<byte>) {
    c.ok(x) ==> c.parse(c.write(x) + rest) == Ok((x, rest))
  }

  /** What is accepted off the front of s is a writable item's encoding. */
  ghost predicate Accepts<T, E>(c: Codec<T, E>, s: seq<byte>) {
    c.parse(s).Ok? ==> c.ok(c.parse(s).value.0) && s == c.write(c.parse(s).value.0) + c.parse(s).value.1
  }

  /** The parser reads exactly what the writer writes, and accepts nothing else. */
  ghost predicate Exact<T(!new), E(!new)>(c: Codec<T, E>) {
    (forall x, rest :: Reads(c, x, rest)) && (forall s :: Accepts(c, s))
  }

  // ---------------------------------------------------------------- bytes and records

  function ParseRaw<E>(n: nat, short: E, s: seq<byte>): Parsed<seq<byte>, E> {
    if |s| < n then Err(short) else Ok((s[..n], s[n..]))
  }

  /** n raw bytes. */
  function Raw<E>(n: nat, short: E): Codec<seq<byte>, E> {
    Codec(s => ParseRaw(n, short, s), b => |b| == n, b => b)
  }

  lemma RawExact<E(!new)>(n: nat, short: E)
    ensures Exact(Raw(n, short))
  {
    var c := Raw(n, short);
    forall b: seq<byte>, rest: seq<byte>
      ensures Reads(c, b, rest)
    {
      if |b| == n {
        assert (b + rest)[..n] == b && (b + rest)[n..] == rest;
      }
    }
    forall s
      ensures Accepts(c, s)
    {
      if n <= |s| {
        assert s == s[..n] + s[n..];
      }
    }
  }

  function ParseWords<E>(fmt: Format, short: E, s: seq<byte>): Parsed<seq<nat>, E> {
    if |s| < Size(fmt) then Err(short) else Ok((UnpackAll(fmt, s[..Size(fmt)]), s[Size(fmt)..]))
  }

  /** One record of numbers. */
  function Words<E>(fmt: Format, short: E): Codec<seq<nat>, E> {
    Codec(s => ParseWords(fmt, short, s), words => Fits(fmt, words), words => PackAll(fmt, words))
  }

  lemma WordsExact<E(!new)>(fmt: Format, short: E)
    ensures Exact(Words(fmt, short))
  {
    var c := Words(fmt, short);
    forall words: seq<nat>, rest: seq<byte>
      ensures Reads(c, words, rest)
    {
      if Fits(fmt, words) {
        var b := PackAll(fmt, words);
        assert (b + rest)[..Size(fmt)] == b && (b + rest)[Size(fmt)..] == rest;
        UnpackAllPackAll(fmt, words);
      }
    }
    forall s
      ensures Accepts(c, s)
    {
      if Size(fmt) <= |s| {
        PackAllUnpackAll(fmt, s[..Size(fmt)]);
        assert s == s[..Size(fmt)] + s[Size(fmt)..];
      }
    }
  }

  // ---------------------------------------------------------------- another view of the item

  function ParseAs<A, B, E>(c: Codec<A, E>, f: A -> B, s: seq<byte>): Parsed<B, E> {
    var (a, s) :- c.parse(s);
    Ok((f(a), s))
  }

  /** Items of c seen through f, which g undoes on the items of that shape. */
  function As<A, B, E>(c: Codec<A, E>, f: A -> B, g: B -> A, shape: B -> bool): Codec<B, E> {
    Codec(s => ParseAs(c, f, s), b => shape(b) && c.ok(g(b)), b => c.write(g(b)))
  }

  ghost predicate Inverse<A(!new), B(!new), E>(c: Codec<A, E>, f: A -> B, g: B -> A, shape: B -> bool) {
    (forall a :: c.ok(a) ==> shape(f(a)) && g(f(a)) == a) && (forall b :: shape(b) && c.ok(g(b)) ==> f(g(b)) == b)
  }

  lemma AsExact<A(!new), B(!new), E(!new)>(c: Codec<A, E>, f: A -> B, g: B -> A, shape: B -> bool)
    requires Exact(c) && Inverse(c, f, g, shape)
    ensures Exact(As(c, f, g, shape))
  {
    var d := As(c, f, g, shape);
    forall b: B, rest: seq<byte>
      ensures Reads(d, b, rest)
    {
      assert Reads(c, g(b), rest);
    }
    forall s
      ensures Accepts(d, s)
    {
      assert Accepts(c, s);
    }
  }

  // ---------------------------------------------------------------- one item after another

  function ParseBoth<A, B, E>(c: Codec<A, E>, d: Codec<B, E>, s: seq<byte>): Parsed<(A, B), E> {
    var (a, s) :- c.parse(s);
    var (b, s) :- d.parse(s);
    Ok(((a, b), s))
  }

  function Both<A, B, E>(c: Codec<A, E>, d: Codec<B, E>): Codec<(A, B), E> {
    Codec(s => ParseBoth(c, d, s), (x: (A, B)) => c.ok(x.0) && d.ok(x.1), (x: (A, B)) => c.write(x.0) + d.write(x.1))
  }

  lemma BothExact<A(!new), B(!new), E(!new)>(c: Codec<A, E>, d: Codec<B, E>)
    requires Exact(c) && Exact(d)
    ensures Exact(Both(c, d))
  {
    forall x: (A, B), rest: seq<byte>
      ensures Reads(Both(c, d), x, rest)
    {
      assert c.write(x.0) + d.write(x.1) + rest == c.write(x.0) + (d.write(x.1) + rest);
      assert Reads(c, x.0, d.write(x.1) + rest) && Reads(d, x.1, rest);
    }
    forall s
      ensures Accepts(Both(c, d), s)
    {
      if ParseBoth(c, d, s).Ok? {
        assert Accepts(c, s) && Accepts(d, c.parse(s).value.1);
        var ((a, b), rest) := ParseBoth(c, d, s).value;
        assert c.write(a) + (d.write(b) + rest) == c.write(a) + d.write(b) + rest;
      }
    }
  }

  // ---------------------------------------------------------------- repeated items

  function ParseMany<T, E>(c: Codec<T, E>, n: nat, s: seq<byte>): (r: Parsed<seq<T>, E>)
    ensures r.Ok? ==> |r.value.0| == n
  {
    if n == 0 then Ok(([], s))
    else
      var (x, s) :- c.parse(s);
      var (xs, s) :- ParseMany(c, n - 1, s);
      Ok(([x] + xs, s))
  }

  function WriteMany<T, E>(c: Codec<T, E>, xs: seq<T>): seq<byte> {
    if xs == [] then [] else c.write(xs[0]) + WriteMany(c, xs[1..])
  }

  predicate AllOk<T, E>(c: Codec<T, E>, xs: seq<T>) {
    forall i :: 0 <= i < |xs| ==> c.ok(xs[i])
  }

  lemma {:induction false} ManyForward<T(!new), E(!new)>(c: Codec<T, E>, xs: seq<T>, rest: seq<byte>)
    requires Exact(c) && AllOk(c, xs)
    ensures ParseMany(c, |xs|, WriteMany(c, xs) + rest) == Ok((xs, rest))
  {
    if xs == [] {
      assert WriteMany(c, xs) + rest == rest;
    } else {
      var tail := WriteMany(c, xs[1..]) + rest;
      assert WriteMany(c, xs) + rest == c.write(xs[0]) + tail;
      assert Reads(c, xs[0], tail);
      ManyForward(c, xs[1..], rest);
      assert [xs[0]] + xs[1..] == xs;
    }
  }

  lemma {:induction false} ManyBack<T(!new), E(!new)>(c: Codec<T, E>, n: nat, s: seq<byte>)
    requires Exact(c) && ParseMany(c, n, s).Ok?
    ensures AllOk(c, ParseMany(c, n, s).value.0)
    ensures s == WriteMany(c, ParseMany(c, n, s).value.0) + ParseMany(c, n, s).value.1
  {
    var (xs, rest) := ParseMany(c, n, s).value;
    if n > 0 {
      var (x, tail) := c.parse(s).value;
      assert Accepts(c, s);
      ManyBack(c, n - 1, tail);
      assert xs[1..] == ParseMany(c, n - 1, tail).value.0;
      assert forall i :: 0 < i < n ==> xs[i] == xs[1..][i - 1];
      assert s == c.write(x) + (WriteMany(c, xs[1..]) + rest);
    }
  }

  const MAX_COUNT: nat := 0xFFFF_FFFF

  lemma SpanOfFour()
    ensures Span(4) == MAX_COUNT + 1
  {
    assert Span(3) == 0x100_0000;
  }

  lemma {:induction false} NumberLies(data: seq<byte>, p: nat, v: nat)
    requires Lies(data, p, PackAll([4], [v])) && v <= MAX_COUNT
    ensures HoldsAt(data, p, 4, v) && |PackAll([4], [v])| == 4
  {
    hide PackAll, HoldsAt, Lies, Span;
    SpanOfFour();
    RecordLies(data, p, [4], [v]);
    Steps([4]);
    assert FieldStart([4], 1) == 4;
  }

  function ParseCounted<T, E>(c: Codec<T, E>, min: nat, max: nat, short: E, outside: E,
      s: seq<byte>): Parsed<seq<T>, E> {
    var (n, s) :- ParseWords([4], short, s);
    if !(min <= n[0] <= max) then Err(outside) else ParseMany(c, n[0], s)
  }

  /** A 32-bit count between min and max, and that many items. */
  function Counted<T, E>(c: Codec<T, E>, min: nat, max: nat, short: E, outside: E): Codec<seq<T>, E> {
    Codec(s => ParseCounted(c, min, max, short, outside, s), xs => min <= |xs| <= max && AllOk(c, xs),
          xs => PackAll([4], [|xs|]) + WriteMany(c, xs))
  }

  lemma CountedForward<T(!new), E(!new)>(c: Codec<T, E>, min: nat, max: nat, short: E, outside: E, xs: seq<T>,
      rest: seq<byte>)
    requires Exact(c) && max <= MAX_COUNT
    ensures Reads(Counted(c, min, max, short, outside), xs, rest)
  {
    if min <= |xs| <= max && AllOk(c, xs) {
      SpanOfFour();
      WordsExact([4], short);
      var tail := WriteMany(c, xs) + rest;
      assert Reads(Words([4], short), [|xs|], tail);
      assert PackAll([4], [|xs|]) + WriteMany(c, xs) + rest == PackAll([4], [|xs|]) + tail;
      ManyForward(c, xs, rest);
    }
  }

  lemma CountedBack<T(!new), E(!new)>(c: Codec<T, E>, min: nat, max: nat, short: E, outside: E, s: seq<byte>)
    requires Exact(c)
    ensures Accepts(Counted(c, min, max, short, outside), s)
  {
    if ParseCounted(c, min, max, short, outside, s).Ok? {
      WordsExact([4], short);
      assert Accepts(Words([4], short), s);
      var (n, tail) := ParseWords([4], short, s).value;
      ManyBack(c, n[0], tail);
      var (xs, rest) := ParseMany(c, n[0], tail).value;
      assert n == [|xs|];
      assert PackAll([4], n) + (WriteMany(c, xs) + rest) == PackAll([4], n) + WriteMany(c, xs) + rest;
    }
  }

  lemma CountedExact<T(!new), E(!new)>(c: Codec<T, E>, min: nat, max: nat, short: E, outside: E)
    requires Exact(c) && max <= MAX_COUNT
    ensures Exact(Counted(c, min, max, short, outside))
  {
    forall xs: seq<T>, rest: seq<byte>
      ensures Reads(Counted(c, min, max, short, outside), xs, rest)
    {
      CountedForward(c, min, max, short, outside, xs, rest);
    }
    forall s
      ensures Accepts(Counted(c, min, max, short, outside), s)
    {
      CountedBack(c, min, max, short, outside, s);
    }
  }

  /** A section only some files have. */
  function Optional<T, E>(present: bool, c: Codec<seq<T>, E>): Codec<seq<T>, E> {
    if present then c else Codec(s => Ok(([], s)), (xs: seq<T>) => |xs| == 0, xs => [])
  }

  lemma OptionalExact<T(!new), E(!new)>(present: bool, c: Codec<seq<T>, E>)
    requires Exact(c)
    ensures Exact(Optional(present, c))
  {
    if !present {
      forall xs: seq<T>, rest: seq<byte>
        ensures Reads(Optional(present, c), xs, rest)
      {
        assert [] + rest == rest;
      }
      forall s
        ensures Accepts(Optional(present, c), s)
      {
        assert s == [] + s;
      }
    }
  }

  /** Exactly n items, n being known from elsewhere. */
  function Fixed<T, E>(c: Codec<T, E>, n: nat): Codec<seq<T>, E> {
    Codec(s => ParseMany(c, n, s), xs => |xs| == n && AllOk(c, xs), xs => WriteMany(c, xs))
  }

  lemma FixedExact<T(!new), E(!new)>(c: Codec<T, E>, n: nat)
    requires Exact(c)
    ensures Exact(Fixed(c, n))
  {
    forall xs: seq<T>, rest: seq<byte>
      ensures Reads(Fixed(c, n), xs, rest)
    {
      if |xs| == n && AllOk(c, xs) {
        ManyForward(c, xs, rest);
      }
    }
    forall s
      ensures Accepts(Fixed(c, n), s)
    {
      if ParseMany(c, n, s).Ok? {
        ManyBack(c, n, s);
      }
    }
  }

  // ---------------------------------------------------------------- conditions and dependence

  function ParseWhere<T, E>(c: Codec<T, E>, p: T -> bool, e: E, s: seq<byte>): Parsed<T, E> {
    var (x, s) :- c.parse(s);
    if p(x) then Ok((x, s)) else Err(e)
  }

  /** Items of c that satisfy p; the others are the error e. */
  function Where<T, E>(c: Codec<T, E>, p: T -> bool, e: E): Codec<T, E> {
    Codec(s => ParseWhere(c, p, e, s), x => c.ok(x) && p(x), c.write)
  }

  lemma WhereExact<T(!new), E(!new)>(c: Codec<T, E>, p: T -> bool, e: E)
    requires Exact(c)
    ensures Exact(Where(c, p, e))
  {
    forall x: T, rest: seq<byte>
      ensures Reads(Where(c, p, e), x, rest)
    {
      assert Reads(c, x, rest);
    }
    forall s
      ensures Accepts(Where(c, p, e), s)
    {
      assert Accepts(c, s);
    }
  }

  function ParseThen<A, B, E>(c: Codec<A, E>, d: A -> Codec<B, E>, s: seq<byte>): Parsed<(A, B), E> {
    var (a, s) :- c.parse(s);
    var (b, s) :- d(a).parse(s);
    Ok(((a, b), s))
  }

  /** An item of c, and then one whose format depends on it. */
  function Then<A, B, E>(c: Codec<A, E>, d: A -> Codec<B, E>): Codec<(A, B), E> {
    Codec(s => ParseThen(c, d, s), (x: (A, B)) => c.ok(x.0) && d(x.0).ok(x.1),
          (x: (A, B)) => c.write(x.0) + d(x.0).write(x.1))
  }

  lemma ThenExact<A(!new), B(!new), E(!new)>(c: Codec<A, E>, d: A -> Codec<B, E>)
    requires Exact(c) && forall a :: c.ok(a) ==> Exact(d(a))
    ensures Exact(Then(c, d))
  {
    forall x: (A, B), rest: seq<byte>
      ensures Reads(Then(c, d), x, rest)
    {
      if c.ok(x.0) {
        var tail := d(x.0).write(x.1) + rest;
        assert c.write(x.0) + d(x.0).write(x.1) + rest == c.write(x.0) + tail;
        assert Reads(c, x.0, tail) && Reads(d(x.0), x.1, rest);
      }
    }
    forall s
      ensures Accepts(Then(c, d), s)
    {
      if ParseThen(c, d, s).Ok? {
        assert Accepts(c, s);
        var (a, tail) := c.parse(s).value;
        assert Accepts(d(a), tail);
        var (b, rest) := d(a).parse(tail).value;
        assert c.write(a) + (d(a).write(b) + rest) == c.write(a) + d(a).write(b) + rest;
      }
    }
  }

  /** A 32-bit length between min and max, and that many raw bytes. */
  function ParseBlob<E>(min: nat, max: nat, short: E, outside: E, s: seq<byte>): Parsed<seq<byte>, E> {
    var (n, s) :- ParseWords([4], short, s);
    if !(min <= n[0] <= max) then Err(outside) else ParseRaw(n[0], short, s)
  }

  function Blob<E>(min: nat, max: nat, short: E, outside: E): Codec<seq<byte>, E> {
    Codec(s => ParseBlob(min, max, short, outside, s), b => min <= |b| <= max, b => PackAll([4], [|b|]) + b)
  }

  lemma BlobForward<E(!new)>(min: nat, max: nat, short: E, outside: E, b: seq<byte>, rest: seq<byte>)
    requires max <= MAX_COUNT
    ensures Reads(Blob(min, max, short, outside), b, rest)
  {
    hide Pack, Unpack;
    var length := Words([4], short);
    if min <= |b| <= max {
      SpanOfFour();
      WordsExact([4], short);
      RawExact(|b|, short);
      assert Reads(length, [|b|], b + rest) && Reads(Raw(|b|, short), b, rest);
      Shift(PackAll([4], [|b|]), b, rest);
    }
  }

  lemma BlobBack<E(!new)>(min: nat, max: nat, short: E, outside: E, s: seq<byte>)
    ensures Accepts(Blob(min, max, short, outside), s)
  {
    hide Pack, Unpack;
    if ParseBlob(min, max, short, outside, s).Ok? {
      WordsExact([4], short);
      assert Accepts(Words([4], short), s);
      var (n, tail) := ParseWords([4], short, s).value;
      var (b, rest) := ParseRaw(n[0], short, tail).value;
      assert n == [|b|] && tail == b + rest;
      Shift(PackAll([4], n), b, rest);
    }
  }

  lemma BlobExact<E(!new)>(min: nat, max: nat, short: E, outside: E)
    requires max <= MAX_COUNT
    ensures Exact(Blob(min, max, short, outside))
  {
    forall b: seq<byte>, rest: seq<byte>
      ensures Reads(Blob(min, max, short, outside), b, rest)
    {
      BlobForward(min, max, short, outside, b, rest);
    }
    forall s
      ensures Accepts(Blob(min, max, short, outside), s)
    {
      BlobBack(min, max, short, outside, s);
    }
  }

  // ---------------------------------------------------------------- loops over items

  /** Items already read, put in front of those still to come. */
  function Resume<T, E>(head: seq<T>, r: Parsed<seq<T>, E>): Parsed<seq<T>, E> {
    if r.Err? then r else Ok((head + r.value.0, r.value.1))
  }

  /** One more item read: the rest of the loop resumes from there. */
  lemma ResumeStep<T, E>(c: Codec<T, E>, head: seq<T>, n: nat, s: seq<byte>)
    requires n > 0
    ensures c.parse(s).Ok? ==>
      Resume(head, ParseMany(c, n, s)) == Resume(head + [c.parse(s).value.0], ParseMany(c, n - 1, c.parse(s).value.1))
    ensures c.parse(s).Err? ==> Resume(head, ParseMany(c, n, s)) == Err(c.parse(s).error)
  {
    if c.parse(s).Ok? {
      var (x, tail) := c.parse(s).value;
      var r := ParseMany(c, n - 1, tail);
      if r.Ok? {
        assert head + ([x] + r.value.0) == head + [x] + r.value.0;
      }
    }
  }

  lemma ResumeEnds<T, E>(c: Codec<T, E>, n: nat, head: seq<T>, s: seq<byte>)
    ensures Resume([], ParseMany(c, n, s)) == ParseMany(c, n, s)
    ensures Resume(head, ParseMany(c, 0, s)) == Ok((head, s))
  {
    var r := ParseMany(c, n, s);
    assert r.Ok? ==> [] + r.value.0 == r.value.0;
    assert head + [] == head;
  }

  /** r is what c parses off the front of s: an item and the bytes after it, or the error. */
  ghost predicate Parses<T, U, E>(c: Codec<T, E>, s: seq<byte>, r: Result<U, E>, item: T, rest: seq<byte>) {
    c.parse(s) == if r.Ok? then Ok((item, rest)) else Err(r.error)
  }

  /** n items of c off the front of s: head is read already and the other k come off the front of rest. */
  ghost predicate Midway<T, E>(c: Codec<T, E>, n: nat, s: seq<byte>, head: seq<T>, k: nat, rest: seq<byte>) {
    ParseMany(c, n, s) == Resume(head, ParseMany(c, k, rest))
  }

  lemma MidwayStarts<T, E>(c: Codec<T, E>, n: nat, s: seq<byte>)
    ensures Midway(c, n, s, [], n, s)
  {
    ResumeEnds(c, n, [], s);
  }

  lemma MidwayStep<T, U, E>(c: Codec<T, E>, n: nat, s: seq<byte>, head: seq<T>, k: nat, before: seq<byte>,
      r: Result<U, E>, item: T, after: seq<byte>)
    requires k > 0 && Midway(c, n, s, head, k, before) && Parses(c, before, r, item, after)
    ensures r.Ok? ==> Midway(c, n, s, head + [item], k - 1, after)
    ensures r.Err? ==> Parses(Fixed(c, n), s, r, head, after)
  {
    ResumeStep(c, head, k, before);
  }

  lemma MidwayEnds<T, U, E>(c: Codec<T, E>, n: nat, s: seq<byte>, head: seq<T>, r: Result<U, E>, rest: seq<byte>)
    requires Midway(c, n, s, head, 0, rest) && r.Ok?
    ensures Parses(Fixed(c, n), s, r, head, rest)
  {
    ResumeEnds(c, 0, head, rest);
  }

  lemma {:induction false} WriteManyAppend<T, E>(c: Codec<T, E>, xs: seq<T>, x: T)
    ensures WriteMany(c, xs + [x]) == WriteMany(c, xs) + c.write(x)
  {
    if xs == [] {
      assert WriteMany(c, [x]) == c.write(x) + [];
    } else {
      assert (xs + [x])[1..] == xs[1..] + [x];
      WriteManyAppend(c, xs[1..], x);
    }
  }

  // ---------------------------------------------------------------- the stream

  /** The position the readers advance over their input. */
  class Stream {
    const data: seq<byte>
    var pos: nat

    ghost predicate Valid()
      reads this
    {
      pos <= |data|
    }

    ghost function Rest(): seq<byte>
      requires Valid()
      reads this
    {
      data[pos..]
    }

    constructor (data: seq<byte>)
      ensures Valid() && Rest() == data
    {
      this.data := data;
      pos := 0;
    }

    /** Up to n bytes, fewer at the end of the input. */
    method Read(n: nat) returns (b: seq<byte>)
      requires Valid()
      modifies this`pos
      ensures Valid()
      ensures b == if n <= |old(Rest())| then old(Rest())[..n] else old(Rest())
      ensures Rest() == old(Rest())[|b|..]
    {
      var end := if n <= |data| - pos then pos + n else |data|;
      b := data[pos..end];
      pos := end;
    }

    /** Exactly n bytes, or the error of a short read. */
    method Take<E>(n: nat, short: E) returns (b: Result<seq<byte>, E>)
      requires Valid()
      modifies this`pos
      ensures Valid()
      ensures match b
              case Ok(bytes) => ParseRaw(n, short, old(Rest())) == Ok((bytes, Rest()))
              case Err(e) => ParseRaw(n, short, old(Rest())) == Err(e)
    {
      var got := Read(n);
      b := if |got| != n then Err(short) else Ok(got);
    }

    method TakeWords<E>(fmt: Format, short: E) returns (words: Result<seq<nat>, E>)
      requires Valid()
      modifies this`pos
      ensures Valid()
      ensures match words
              case Ok(w) => ParseWords(fmt, short, old(Rest())) == Ok((w, Rest()))
              case Err(e) => ParseWords(fmt, short, old(Rest())) == Err(e)
      ensures words.Ok? ==> Fits(fmt, words.value)
    {
      var b :- Take(Size(fmt), short);
      return Ok(UnpackAll(fmt, b));
    }

    /** n records of a table, each viewed as the table's codec c does. */
    method TakeRecords<T, E>(fmt: Format, f: seq<nat> -> T, ghost c: Codec<T, E>, n: nat, short: E)
        returns (records: Result<seq<T>, E>)
      requires Valid()
      requires forall s :: c.parse(s) == ParseAs(Words(fmt, short), f, s)
      modifies this`pos
      ensures Valid()
      ensures match records
              case Ok(r) => ParseMany(c, n, old(Rest())) == Ok((r, Rest()))
              case Err(e) => ParseMany(c, n, old(Rest())) == Err(e)
    {
      hide ParseMany, ParseWords, Resume;
      var got: seq<T> := [];
      ResumeEnds(c, n, [], Rest());
      for i := 0 to n
        invariant Valid()
        invariant ParseMany(c, n, old(Rest())) == Resume(got, ParseMany(c, n - i, Rest()))
      {
        ResumeStep(c, got, n - i, Rest());
        var w :- TakeWords(fmt, short);
        got := got + [f(w)];
      }
      ResumeEnds(c, 0, got, Rest());
      return Ok(got);
    }

    /** A counted table of records. */
    method TakeTable<T, E>(fmt: Format, f: seq<nat> -> T, ghost c: Codec<T, E>, max: nat, short: E, outside: E)
        returns (records: Result<seq<T>, E>)
      requires Valid()
      requires forall s :: c.parse(s) == ParseAs(Words(fmt, short), f, s)
      modifies this`pos
      ensures Valid()
      ensures match records
              case Ok(r) => ParseCounted(c, 0, max, short, outside, old(Rest())) == Ok((r, Rest()))
              case Err(e) => ParseCounted(c, 0, max, short, outside, old(Rest())) == Err(e)
    {
      var n :- TakeWords([4], short);
      if n[0] > max {
        return Err(outside);
      }
      records := TakeRecords(fmt, f, c, n[0], short);
    }
  }

  /** The output the writers append to. */
  class Sink {
    var out: seq<byte>

    constructor (head: seq<byte>)
      ensures out == head
    {
      out := head;
    }

    method Append(b: seq<byte>)
      modifies this
      ensures out == old(out) + b
    {
      out := out + b;
    }
  }
}
