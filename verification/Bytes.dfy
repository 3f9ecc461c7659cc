/**
 Little-endian packing as Python's struct module does it, and parsers that take a value off the front
 of a byte sequence. A float is carried as its raw bits.
 */
module Bytes {
  type byte = x: int | 0 <= x < 256

  /** 256 to the n: one more than the largest n-byte number. */
  function Span(n: nat): (s: nat)
    ensures s > 0
  {
    if n == 0 then 1 else 256 * Span(n - 1)
  }

  /** v in n bytes, low byte first. */
  function Pack(n: nat, v: nat): (s: seq<byte>)
    ensures |s| == n
  {
    if n == 0 then [] else [v % 256] + Pack(n - 1, v / 256)
  }

  function Unpack(s: seq<byte>): (v: nat)
    ensures v < Span(|s|)
  {
    if s == [] then 0 else s[0] + 256 * Unpack(s[1..])
  }

  lemma {:induction false} UnpackPack(n: nat, v: nat)
    requires v < Span(n)
    ensures Unpack(Pack(n, v)) == v
  {
    if n > 0 {
      UnpackPack(n - 1, v / 256);
      assert Pack(n, v)[1..] == Pack(n - 1, v / 256);
    }
  }

  lemma {:induction false} PackUnpack(s: seq<byte>)
    ensures Pack(|s|, Unpack(s)) == s
  {
    if s != [] {
      PackUnpack(s[1..]);
      var v, rest := Unpack(s), Unpack(s[1..]);
      assert v % 256 == s[0] && v / 256 == rest;
      assert Pack(|s|, v) == [s[0]] + Pack(|s| - 1, rest);
    }
  }

  // ---------------------------------------------------------------- records of numbers

  /** A struct format: the byte width of each field. */
  type Format = seq<nat>

  /** n fields of w bytes. */
  function Of(n: nat, w: nat): (fmt: Format)
    ensures |fmt| == n && forall i :: 0 <= i < n ==> fmt[i] == w
  {
    seq(n, _ => w)
  }

  /** Field i of a record; 0 where the record is too short to have it. */
  function At(w: seq<nat>, i: nat): nat {
    if i < |w| then w[i] else 0
  }

  function Size(fmt: Format): nat {
    if fmt == [] then 0 else fmt[0] + Size(fmt[1..])
  }

  /** One number per field, each within the field's width. */
  predicate Fits(fmt: Format, words: seq<nat>) {
    |words| == |fmt| && forall i :: 0 <= i < |fmt| ==> words[i] < Span(fmt[i])
  }

  function PackAll(fmt: Format, words: seq<nat>): (s: seq<byte>)
    ensures |words| == |fmt| ==> |s| == Size(fmt)
  {
    if fmt == [] || words == [] then [] else Pack(fmt[0], words[0]) + PackAll(fmt[1..], words[1..])
  }

  function UnpackAll(fmt: Format, s: seq<byte>): (words: seq<nat>)
    requires |s| == Size(fmt)
    ensures Fits(fmt, words)
  {
    if fmt == [] then [] else [Unpack(s[..fmt[0]])] + UnpackAll(fmt[1..], s[fmt[0]..])
  }

  lemma {:induction false} UnpackAllPackAll(fmt: Format, words: seq<nat>)
    requires Fits(fmt, words)
    ensures UnpackAll(fmt, PackAll(fmt, words)) == words
  {
    if fmt != [] {
      var s := PackAll(fmt, words);
      assert s[..fmt[0]] == Pack(fmt[0], words[0]) && s[fmt[0]..] == PackAll(fmt[1..], words[1..]);
      UnpackPack(fmt[0], words[0]);
      UnpackAllPackAll(fmt[1..], words[1..]);
    }
  }

  lemma {:induction false} PackAllUnpackAll(fmt: Format, s: seq<byte>)
    requires |s| == Size(fmt)
    ensures PackAll(fmt, UnpackAll(fmt, s)) == s
  {
    if fmt != [] {
      var head, rest, words := s[..fmt[0]], s[fmt[0]..], UnpackAll(fmt, s);
      PackUnpack(head);
      PackAllUnpackAll(fmt[1..], rest);
      assert words[0] == Unpack(head) && words[1..] == UnpackAll(fmt[1..], rest);
      assert PackAll(fmt, words) == head + rest;
    }
  }

  // ---------------------------------------------------------------- where the bytes lie

  /** The w bytes from p on are the number v. */
  ghost predicate HoldsAt(ib: seq<byte>, p: nat, w: nat, v: int) {
    p + w <= |ib| && Unpack(ib[p..p + w]) == v
  }

  /** Where field j of a record starts. */
  function FieldStart(fmt: Format, j: nat): nat {
    if j == 0 || fmt == [] then 0 else fmt[0] + FieldStart(fmt[1..], j - 1)
  }

  lemma {:induction false} FieldStartOf(n: nat, w: nat, j: nat)
    requires j <= n
    ensures FieldStart(Of(n, w), j) == j * w
  {
    if j > 0 {
      assert Of(n, w)[1..] == Of(n - 1, w);
      FieldStartOf(n - 1, w, j - 1);
    }
  }

  lemma {:induction false} HoldsLater(raw: seq<byte>, w: nat, p: nat, k: nat, v: int)
    requires w <= |raw| && HoldsAt(raw[w..], p, k, v)
    ensures HoldsAt(raw, w + p, k, v)
  {
    assert raw[w..][p..p + k] == raw[w + p..w + p + k];
  }

  lemma {:induction false} UnpackedHead(fmt: Format, raw: seq<byte>)
    requires |raw| == Size(fmt) && fmt != []
    ensures fmt[0] <= |raw| && UnpackAll(fmt, raw) == [Unpack(raw[..fmt[0]])] + UnpackAll(fmt[1..], raw[fmt[0]..])
    ensures HoldsAt(raw, 0, fmt[0], UnpackAll(fmt, raw)[0])
  {
    hide Unpack;
    assert raw[..fmt[0]] == raw[0..fmt[0]];
  }

  lemma {:induction false} UnpackedField(fmt: Format, raw: seq<byte>, j: nat)
    requires |raw| == Size(fmt) && j < |fmt|
    ensures HoldsAt(raw, FieldStart(fmt, j), fmt[j], UnpackAll(fmt, raw)[j])
  {
    hide Unpack, UnpackAll, HoldsAt;
    UnpackedHead(fmt, raw);
    if j > 0 {
      var w, rest := fmt[0], fmt[1..];
      UnpackedField(rest, raw[w..], j - 1);
      HoldsLater(raw, w, FieldStart(rest, j - 1), rest[j - 1], UnpackAll(rest, raw[w..])[j - 1]);
    }
  }

  lemma {:induction false} HoldsWithin(head: seq<byte>, rest: seq<byte>, p: nat, k: nat, v: int)
    requires HoldsAt(rest, p, k, v)
    ensures HoldsAt(head + rest, |head| + p, k, v)
  {
    assert (head + rest)[|head|..] == rest;
    HoldsLater(head + rest, |head|, p, k, v);
  }

  lemma {:induction false} PackedHead(w: nat, v: nat, rest: seq<byte>)
    requires v < Span(w)
    ensures HoldsAt(Pack(w, v) + rest, 0, w, v)
  {
    hide Pack, Unpack, Span;
    assert (Pack(w, v) + rest)[0..w] == Pack(w, v);
    UnpackPack(w, v);
  }

  lemma {:induction false} PackedField(fmt: Format, words: seq<nat>, j: nat)
    requires |words| == |fmt| && j < |fmt| && words[j] < Span(fmt[j])
    ensures HoldsAt(PackAll(fmt, words), FieldStart(fmt, j), fmt[j], words[j])
  {
    hide Pack, Unpack, HoldsAt, Span;
    var rest := PackAll(fmt[1..], words[1..]);
    assert PackAll(fmt, words) == Pack(fmt[0], words[0]) + rest;
    if j == 0 {
      PackedHead(fmt[0], words[0], rest);
    } else {
      PackedField(fmt[1..], words[1..], j - 1);
      HoldsWithin(Pack(fmt[0], words[0]), rest, FieldStart(fmt[1..], j - 1), fmt[j], words[j]);
    }
  }

  lemma {:induction false} FieldStartJoin(a: Format, b: Format, j: nat)
    ensures FieldStart(a + b, j) == if j <= |a| then FieldStart(a, j) else Size(a) + FieldStart(b, j - |a|)
  {
    if a == [] {
      assert a + b == b;
    } else if j > 0 {
      assert (a + b)[1..] == a[1..] + b;
      FieldStartJoin(a[1..], b, j - 1);
      if j == |a| {
        FieldsFill(a);
      }
    }
  }

  lemma {:induction false} FieldsFill(fmt: Format)
    ensures FieldStart(fmt, |fmt|) == Size(fmt)
  {
    if fmt != [] {
      FieldsFill(fmt[1..]);
    }
  }

  lemma {:induction false} SizeOfSame(n: nat, w: nat)
    ensures Size(Of(n, w)) == n * w
  {
    FieldsFill(Of(n, w));
    FieldStartOf(n, w, n);
  }

  lemma {:induction false} SizeJoin(a: Format, b: Format)
    ensures Size(a + b) == Size(a) + Size(b)
  {
    if a == [] {
      assert a + b == b;
    } else {
      assert (a + b)[1..] == a[1..] + b;
      SizeJoin(a[1..], b);
    }
  }

  /** The bytes lie in the data from p on. */
  ghost predicate Lies(data: seq<byte>, p: nat, bytes: seq<byte>) {
    p + |bytes| <= |data| && data[p..p + |bytes|] == bytes
  }

  lemma {:induction false} LiesSplit(data: seq<byte>, p: nat, a: seq<byte>, b: seq<byte>)
    requires Lies(data, p, a + b)
    ensures Lies(data, p, a) && Lies(data, p + |a|, b)
  {
    assert data[p..p + |a + b|][..|a|] == a && data[p..p + |a + b|][|a|..] == b;
  }

  lemma {:induction false} HoldsBefore(head: seq<byte>, rest: seq<byte>, p: nat, k: nat, v: int)
    requires HoldsAt(head, p, k, v)
    ensures HoldsAt(head + rest, p, k, v)
  {
    assert (head + rest)[p..p + k] == head[p..p + k];
  }

  lemma {:induction false} LiesHolds(data: seq<byte>, p: nat, bytes: seq<byte>, q: nat, w: nat, v: int)
    requires Lies(data, p, bytes) && HoldsAt(bytes, q, w, v)
    ensures HoldsAt(data, p + q, w, v)
  {
    var tail := data[p..];
    assert tail[..|bytes|] == bytes && tail == tail[..|bytes|] + tail[|bytes|..];
    HoldsBefore(bytes, tail[|bytes|..], q, w, v);
    HoldsLater(data, p, q, w, v);
  }

  /** The fields of a record lie one after another. */
  lemma {:induction false} FieldsLie(data: seq<byte>, p: nat, fmt: Format, words: seq<nat>, j: nat)
    requires Lies(data, p, PackAll(fmt, words)) && Fits(fmt, words) && j < |fmt|
    ensures HoldsAt(data, p + FieldStart(fmt, j), fmt[j], words[j])
  {
    hide PackAll, Span, HoldsAt, FieldStart;
    PackedField(fmt, words, j);
    LiesHolds(data, p, PackAll(fmt, words), FieldStart(fmt, j), fmt[j], words[j]);
  }

  lemma LiesItself(bytes: seq<byte>)
    ensures Lies(bytes, 0, bytes)
  {
  }

  /** Each field starts where the one before it ends. */
  lemma {:induction false} Steps(fmt: Format)
    ensures FieldStart(fmt, 0) == 0 && FieldStart(fmt, |fmt|) == Size(fmt)
    ensures forall j: nat {:trigger FieldStart(fmt, j)} :: j < |fmt| ==>
      FieldStart(fmt, j + 1) == FieldStart(fmt, j) + fmt[j]
  {
    FieldsFill(fmt);
    forall j: nat | j < |fmt|
      ensures FieldStart(fmt, j + 1) == FieldStart(fmt, j) + fmt[j]
    {
      StepAt(fmt, j);
    }
  }

  lemma {:induction false} StepAt(fmt: Format, j: nat)
    requires j < |fmt|
    ensures FieldStart(fmt, j + 1) == FieldStart(fmt, j) + fmt[j]
  {
    if j > 0 {
      StepAt(fmt[1..], j - 1);
    }
  }

  /** All fields of a record that lies at p. */
  ghost predicate FieldsAt(data: seq<byte>, p: nat, fmt: Format, words: seq<nat>) {
    |words| == |fmt| && forall j: nat :: j < |fmt| ==> HoldsAt(data, p + FieldStart(fmt, j), fmt[j], words[j])
  }

  lemma {:induction false} RecordLies(data: seq<byte>, p: nat, fmt: Format, words: seq<nat>)
    requires Lies(data, p, PackAll(fmt, words)) && Fits(fmt, words)
    ensures FieldsAt(data, p, fmt, words) && |PackAll(fmt, words)| == Size(fmt)
  {
    hide PackAll, FieldStart, HoldsAt;
    forall j: nat | j < |fmt|
      ensures HoldsAt(data, p + FieldStart(fmt, j), fmt[j], words[j])
    {
      FieldsLie(data, p, fmt, words, j);
    }
  }

  /** n equal fields of w bytes. */
  lemma {:induction false} SameFieldsAt(data: seq<byte>, p: nat, n: nat, w: nat, words: seq<nat>)
    requires FieldsAt(data, p, Of(n, w), words)
    ensures forall j: nat :: j < n ==> HoldsAt(data, p + w * j, w, words[j])
    ensures Size(Of(n, w)) == n * w
  {
    hide HoldsAt;
    SizeOfSame(n, w);
    forall j: nat | j < n
      ensures HoldsAt(data, p + w * j, w, words[j])
    {
      FieldStartOf(n, w, j);
      assert Of(n, w)[j] == w;
    }
  }

  /** Byte i of a number is its i-th digit to the base 256: the low byte comes first. */
  lemma {:induction false} LowByteFirst(s: seq<byte>, i: nat) returns (low: nat, high: nat)
    requires i < |s|
    ensures low < Span(i) && Unpack(s) == low + Span(i) * (s[i] as int + 256 * high)
  {
    if i == 0 {
      low, high := 0, Unpack(s[1..]);
    } else {
      var l, h := LowByteFirst(s[1..], i - 1);
      low, high := s[0] + 256 * l, h;
      assert Span(i) == 256 * Span(i - 1);
      TimesMoves(256, Span(i - 1), s[i] as int + 256 * high);
    }
  }

  lemma TimesMoves(a: int, b: int, c: int)
    ensures a * (b * c) == (a * b) * c
  {
  }

  /** So four bytes are what they are in a 32-bit field. */
  lemma FourBytes(s: seq<byte>)
    requires |s| == 4
    ensures Unpack(s) == s[0] as int + 0x100 * s[1] as int + 0x1_0000 * s[2] as int + 0x100_0000 * s[3] as int
  {
    assert s[1..][1..] == s[2..] && s[2..][1..] == s[3..] && s[3..][1..] == [];
  }

  lemma {:induction false} Shift(a: seq<byte>, b: seq<byte>, c: seq<byte>)
    ensures a + b + c == a + (b + c)
  {
  }
}
