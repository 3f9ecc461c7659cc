/**
 The 64-bit FNV-1a hash, on numbers modulo 2 to the 64. Every step is a bijection of the 64-bit states, so two inputs of
 one length that differ in a single byte never share a hash.
 */
module Fnv {
  import opened Prelude
  import opened Bytes

  const MODULUS: nat := 0x1_0000_0000_0000_0000
  const OFFSET: nat := 0xCBF29CE484222325
  const PRIME: nat := 0x100000001B3
  /** The inverse of the prime modulo 2 to the 64. */
  const INVERSE: nat := 14886173955864302971

  type state = x: int | 0 <= x < MODULUS

  /** The exclusive or of the bits of a and b. */
  function XorBits(a: nat, b: nat): nat
    decreases a + b
  {
    if a == 0 && b == 0 then 0 else 2 * XorBits(a / 2, b / 2) + (a + b) % 2
  }

  /** 2 to the n. */
  function Power(n: nat): (p: nat)
    ensures p > 0
  {
    if n == 0 then 1 else 2 * Power(n - 1)
  }

  lemma {:induction false} XorBound(n: nat, a: nat, b: nat)
    requires a < Power(n) && b < Power(n)
    ensures XorBits(a, b) < Power(n)
  {
    if n > 0 {
      XorBound(n - 1, a / 2, b / 2);
    }
  }

  function Xor(a: byte, b: byte): byte {
    assert Power(8) == 256;
    XorBound(8, a, b);
    XorBits(a, b)
  }

  /** The state with its low byte combined with b. */
  function Mix(v: state, b: byte): state {
    var high := v / 256;
    assert high < MODULUS / 256;
    256 * high + Xor(v % 256, b)
  }

  function Step(v: state, b: byte): state { Scale(Mix(v, b)) }

  function Scale(v: state): state { v * PRIME % MODULUS }

  function Unscale(v: state): state { v * INVERSE % MODULUS }

  /** The state before a step by b. */
  function Undo(v: state, b: byte): state { Mix(Unscale(v), b) }

  function From(v: state, data: seq<byte>): state
    decreases |data|
  {
    if data == [] then v else From(Step(v, data[0]), data[1..])
  }

  function Hash(data: seq<byte>): state { From(OFFSET, data) }

  /** Bit n of x. */
  function Bit(x: nat, n: nat): nat { x / Power(n) % 2 }

  /** Bit by bit, the exclusive or is the sum without carry. */
  lemma {:induction false} XorAt(a: nat, b: nat, n: nat)
    ensures Bit(XorBits(a, b), n) == (Bit(a, n) + Bit(b, n)) % 2
    decreases n
  {
    XorHalves(a, b);
    hide XorBits, Bit;
    if n == 0 {
      BitZero(XorBits(a, b));
      BitZero(a);
      BitZero(b);
    } else {
      BitOfHalf(XorBits(a, b), n);
      BitOfHalf(a, n);
      BitOfHalf(b, n);
      XorAt(a / 2, b / 2, n - 1);
    }
  }

  lemma XorHalves(a: nat, b: nat)
    ensures XorBits(a, b) / 2 == XorBits(a / 2, b / 2) && XorBits(a, b) % 2 == (a + b) % 2
  {
  }

  lemma BitZero(x: nat)
    ensures Bit(x, 0) == x % 2
  {
    assert Power(0) == 1;
  }

  lemma BitOfHalf(x: nat, n: nat)
    requires n > 0
    ensures Bit(x, n) == Bit(x / 2, n - 1)
  {
    var p := Power(n - 1);
    var q, r := x / 2 / p, x / 2 % p;
    assert x == 2 * (p * q + r) + x % 2;
    assert 2 * (p * q) == (2 * p) * q;
    QuotientIs(x, 2 * p, q, 2 * r + x % 2);
  }

  /** Published vectors: the hash of nothing, and of the letter a. */
  lemma Vectors()
    ensures Hash([]) == 0xCBF29CE484222325 && Hash([0x61]) == 0xAF63DC4C8601EC8C
  {
    StepOfA();
    hide Step;
    var a: seq<byte> := [0x61];
    assert From(OFFSET, a) == From(Step(OFFSET, 0x61), a[1..]) && a[1..] == [];
  }

  lemma StepOfA()
    ensures Step(OFFSET, 0x61) == 0xAF63DC4C8601EC8C
  {
    XorOfA();
    hide XorBits;
    assert Mix(OFFSET, 0x61) == 0xCBF29CE484222344;
  }

  lemma XorOfA()
    ensures XorBits(0x25, 0x61) == 0x44
  {
    assert XorBits(0, 0) == 0;
    assert XorBits(0, 1) == 1;
    assert XorBits(1, 3) == 2;
    assert XorBits(2, 6) == 4;
    assert XorBits(4, 12) == 8;
    assert XorBits(9, 24) == 17;
    assert XorBits(18, 48) == 34;
  }

  lemma LowBitTwice(h: nat, a: nat, b: nat)
    ensures var x := 2 * h + (a + b) % 2; x / 2 == h && (x + b) % 2 == a % 2
  {
  }

  lemma {:induction false} XorBitsTwice(a: nat, b: nat)
    ensures XorBits(XorBits(a, b), b) == a
    decreases a + b
  {
    if a != 0 || b != 0 {
      XorBitsTwice(a / 2, b / 2);
      LowBitTwice(XorBits(a / 2, b / 2), a, b);
    }
  }

  lemma {:induction false} XorBitsSymmetric(a: nat, b: nat)
    ensures XorBits(a, b) == XorBits(b, a)
    decreases a + b
  {
    if a != 0 || b != 0 {
      XorBitsSymmetric(a / 2, b / 2);
    }
  }

  lemma XorTwice(a: byte, b: byte)
    ensures Xor(Xor(a, b), b) == a
  {
    XorBitsTwice(a, b);
  }

  lemma XorSeparates(a: byte, b: byte, b': byte)
    requires Xor(a, b) == Xor(a, b')
    ensures b == b'
  {
    XorBitsSymmetric(a, b);
    XorBitsSymmetric(a, b');
    XorBitsTwice(b, a);
    XorBitsTwice(b', a);
  }

  lemma Residue(a: int, k: int, r: state)
    requires a == k * MODULUS + r
    ensures a % MODULUS == r
  {
  }

  lemma ScaleBack(v: state)
    ensures Unscale(Scale(v)) == v && Scale(Unscale(v)) == v
  {
    var t := (PRIME * INVERSE - 1) / MODULUS;
    assert PRIME * INVERSE == 1 + MODULUS * t;
    var k := v * PRIME / MODULUS;
    assert Scale(v) == v * PRIME - MODULUS * k;
    assert Scale(v) * INVERSE == (v * t - k * INVERSE) * MODULUS + v;
    Residue(Scale(v) * INVERSE, v * t - k * INVERSE, v);
    var m := v * INVERSE / MODULUS;
    assert Unscale(v) == v * INVERSE - MODULUS * m;
    assert Unscale(v) * PRIME == (v * t - m * PRIME) * MODULUS + v;
    Residue(Unscale(v) * PRIME, v * t - m * PRIME, v);
  }

  lemma HighAndLow(h: nat, l: byte)
    ensures (256 * h + l) / 256 == h && (256 * h + l) % 256 == l
  {
  }

  /** The combination with a byte undoes itself. */
  lemma MixTwice(v: state, b: byte)
    ensures Mix(Mix(v, b), b) == v
  {
    hide Xor;
    HighAndLow(v / 256, Xor(v % 256, b));
    XorTwice(v % 256, b);
  }

  /** Each step is a bijection of the states: Undo is its inverse on both sides. */
  lemma StepIsBijective(v: state, b: byte)
    ensures Undo(Step(v, b), b) == v && Step(Undo(v, b), b) == v
  {
    hide Mix, Scale, Unscale;
    MixTwice(v, b);
    ScaleBack(Mix(v, b));
    MixTwice(Unscale(v), b);
    ScaleBack(v);
  }

  /** From one state, different bytes lead to different states. */
  lemma StepSeparates(v: state, b: byte, b': byte)
    requires Step(v, b) == Step(v, b')
    ensures b == b'
  {
    hide Xor, Scale, Unscale;
    ScaleBack(Mix(v, b));
    ScaleBack(Mix(v, b'));
    XorSeparates(v % 256, b, b');
  }

  /** The same bytes keep different states apart. */
  lemma {:induction false} FromIsInjective(v: state, v': state, data: seq<byte>)
    requires From(v, data) == From(v', data)
    ensures v == v'
    decreases |data|
  {
    hide Step, Undo;
    if data != [] {
      FromIsInjective(Step(v, data[0]), Step(v', data[0]), data[1..]);
      StepIsBijective(v, data[0]);
      StepIsBijective(v', data[0]);
    }
  }

  lemma {:induction false} FromConcat(v: state, a: seq<byte>, b: seq<byte>)
    ensures From(v, a + b) == From(From(v, a), b)
    decreases |a|
  {
    hide Step;
    if a == [] {
      assert a + b == b;
    } else {
      assert (a + b)[1..] == a[1..] + b;
      FromConcat(Step(v, a[0]), a[1..], b);
    }
  }

  /** a and b differ nowhere but, perhaps, at one place. */
  ghost predicate DifferAtMostOnce(a: seq<byte>, b: seq<byte>) {
    |a| == |b| && exists p: nat :: DifferOnlyAt(a, b, p)
  }

  ghost predicate DifferOnlyAt(a: seq<byte>, b: seq<byte>, p: nat)
    requires |a| == |b|
  {
    forall i: nat :: i < |a| && i != p ==> a[i] == b[i]
  }

  /** The hash tells apart any two inputs of one length that differ in a single byte. */
  lemma {:induction false} HashSeparates(a: seq<byte>, b: seq<byte>)
    requires DifferAtMostOnce(a, b)
    ensures Hash(a) == Hash(b) <==> a == b
  {
    hide Step;
    var p: nat :| DifferOnlyAt(a, b, p);
    if p >= |a| {
      assert a == b;
    } else if Hash(a) == Hash(b) {
      var head, tail := a[..p], a[p + 1..];
      assert a == head + ([a[p]] + tail) && b == head + ([b[p]] + tail);
      var v := From(OFFSET, head);
      FromConcat(OFFSET, head, [a[p]] + tail);
      FromConcat(OFFSET, head, [b[p]] + tail);
      assert ([a[p]] + tail)[1..] == tail && ([b[p]] + tail)[1..] == tail;
      FromIsInjective(Step(v, a[p]), Step(v, b[p]), tail);
      StepSeparates(v, a[p], b[p]);
      assert a == b;
    }
  }

  /** fnv1a64: the bytes one at a time. */
  method Fnv1a64(data: seq<byte>) returns (value: state)
    ensures value == Hash(data)
  {
    hide Step;
    value := OFFSET;
    for i := 0 to |data|
      invariant From(value, data[i..]) == Hash(data)
    {
      assert data[i..][1..] == data[i + 1..];
      value := Step(value, data[i]);
    }
  }
}
