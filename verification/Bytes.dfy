/** Bytes and byte strings: bitwise exclusive or, big-endian value, and the order Rust derives on arrays. */
module Bytes {

  type byte = x: int | 0 <= x < 256
  type u16 = x: int | 0 <= x < 0x1_0000
  type u32 = x: int | 0 <= x < 0x1_0000_0000
  type i32 = x: int | -0x8000_0000 <= x < 0x8000_0000
  type i64 = x: int | -0x8000_0000_0000_0000 <= x < 0x8000_0000_0000_0000

  datatype Option<+T> = None | Some(value: T)

  // === Powers of two ===

  function Pow2(n: nat): (p: nat)
    ensures p > 0
  {
    if n == 0 then 1 else 2 * Pow2(n - 1)
  }

  lemma {:induction false} Pow2Add(m: nat, n: nat)
    ensures Pow2(m + n) == Pow2(m) * Pow2(n)
    decreases m
  {
    if m == 0 {
      assert 1 * Pow2(n) == Pow2(n);
    } else {
      Pow2Add(m - 1, n);
      assert Pow2(m + n) == 2 * Pow2(m - 1 + n);
      assert 2 * (Pow2(m - 1) * Pow2(n)) == (2 * Pow2(m - 1)) * Pow2(n);
    }
  }

  lemma Pow2Monotone(m: nat, n: nat)
    requires m <= n
    ensures Pow2(m) <= Pow2(n)
  {
    if m < n {
      Pow2Monotone(m, n - 1);
    }
  }

  // === Exclusive or, bit by bit ===

  function Xor(a: nat, b: nat): nat
    decreases a + b
  {
    if a == 0 && b == 0 then 0
    else 2 * Xor(a / 2, b / 2) + (if a % 2 != b % 2 then 1 else 0)
  }

  lemma XorCommutes(a: nat, b: nat)
    ensures Xor(a, b) == Xor(b, a)
    decreases a + b
  {
    if a != 0 || b != 0 {
      XorCommutes(a / 2, b / 2);
    }
  }

  lemma {:induction false} XorZero(a: nat, b: nat)
    ensures Xor(a, b) == 0 <==> a == b
    decreases a + b
  {
    if a != 0 || b != 0 {
      XorZero(a / 2, b / 2);
    }
  }

  lemma {:induction false} XorAssociates(a: nat, b: nat, c: nat)
    ensures Xor(Xor(a, b), c) == Xor(a, Xor(b, c))
    decreases a + b + c
  {
    if a != 0 || b != 0 || c != 0 {
      XorAssociates(a / 2, b / 2, c / 2);
      XorHalves(a, b);
      XorHalves(b, c);
      XorHalves(Xor(a, b), c);
      XorHalves(a, Xor(b, c));
    }
  }

  lemma XorHalves(a: nat, b: nat)
    ensures Xor(a, b) / 2 == Xor(a / 2, b / 2)
    ensures Xor(a, b) % 2 == if a % 2 != b % 2 then 1 else 0
  {
  }

  lemma XorWithZero(a: nat)
    ensures Xor(a, 0) == a
  {
    if a != 0 {
      XorWithZero(a / 2);
    }
  }

  /** XOR with a fixed number loses nothing. */
  lemma XorCancels(a: nat, b: nat, t: nat)
    ensures Xor(a, t) == Xor(b, t) <==> a == b
  {
    XorAssociates(a, t, t);
    XorAssociates(b, t, t);
    XorZero(t, t);
    XorWithZero(a);
    XorWithZero(b);
  }

  lemma {:induction false} XorBound(a: nat, b: nat, n: nat)
    requires a < Pow2(n) && b < Pow2(n)
    ensures Xor(a, b) < Pow2(n)
    decreases n
  {
    if a != 0 || b != 0 {
      XorBound(a / 2, b / 2, n - 1);
    }
  }

  /** XOR works on the high and on the low bits separately. */
  lemma {:induction false} XorSplits(a: nat, r: nat, b: nat, s: nat, n: nat)
    requires r < Pow2(n) && s < Pow2(n)
    ensures Xor(a * Pow2(n) + r, b * Pow2(n) + s) == Xor(a, b) * Pow2(n) + Xor(r, s)
    decreases n
  {
    if n > 0 {
      var p := Pow2(n - 1);
      XorSplits(a, r / 2, b, s / 2, n - 1);
      var x, hx := DoubleSplit(a, r, p);
      var y, hy := DoubleSplit(b, s, p);
      var z, hz := DoubleSplit(Xor(a, b), Xor(r, s), p);
      XorFromHalves(x, y, z, hx, hy, hz, r, s);
    } else {
      assert a * Pow2(0) == a && b * Pow2(0) == b && Xor(a, b) * Pow2(0) == Xor(a, b);
    }
  }

  lemma XorFromHalves(x: nat, y: nat, z: nat, hx: nat, hy: nat, hz: nat, r: nat, s: nat)
    requires x / 2 == hx && y / 2 == hy && z / 2 == hz
    requires x % 2 == r % 2 && y % 2 == s % 2 && z % 2 == Xor(r, s) % 2
    requires Xor(hx, hy) == hz
    ensures Xor(x, y) == z
  {
    XorHalves(x, y);
    XorHalves(r, s);
  }

  lemma DoubleSplit(a: nat, r: nat, p: nat) returns (x: nat, h: nat)
    ensures x == a * (2 * p) + r && h == a * p + r / 2
    ensures x / 2 == h && x % 2 == r % 2
  {
    x, h := a * (2 * p) + r, a * p + r / 2;
    assert a * (2 * p) == 2 * (a * p);
  }

  // === Big-endian value and order of byte strings ===

  /** The number a byte string denotes, most significant byte first. */
  function BigEndian(s: seq<byte>): nat
  {
    if s == [] then 0 else s[0] * Pow2(8 * (|s| - 1)) + BigEndian(s[1..])
  }

  lemma {:induction false} BigEndianBound(s: seq<byte>)
    ensures BigEndian(s) < Pow2(8 * |s|)
  {
    if s != [] {
      BigEndianBound(s[1..]);
      var m := 8 * (|s| - 1);
      LeadingDigit(s[0], BigEndian(s[1..]), Pow2(m), 256);
      Pow2Add(8, m);
      assert Pow2(8) == 256;
    }
  }

  lemma LeadingDigit(x: nat, r: nat, p: nat, base: nat)
    requires x < base && r < p
    ensures x * p <= x * p + r < (x + 1) * p <= base * p
  {
    assert (x + 1) * p == x * p + p;
    assert (x + 1) * p <= base * p;
  }

  /** The derived order on byte arrays: the first differing byte decides. */
  predicate LexLess(a: seq<byte>, b: seq<byte>)
    requires |a| == |b|
  {
    a != [] && (a[0] < b[0] || (a[0] == b[0] && LexLess(a[1..], b[1..])))
  }

  /** On arrays of one length, comparing bytes left to right is comparing the numbers they denote. */
  lemma {:induction false} LexIsNumeric(a: seq<byte>, b: seq<byte>)
    requires |a| == |b|
    ensures LexLess(a, b) <==> BigEndian(a) < BigEndian(b)
    ensures a == b <==> BigEndian(a) == BigEndian(b)
  {
    if a != [] {
      LexIsNumeric(a[1..], b[1..]);
      BigEndianBound(a[1..]);
      BigEndianBound(b[1..]);
      HeadDominates(a[0], BigEndian(a[1..]), b[0], BigEndian(b[1..]), Pow2(8 * (|a| - 1)));
      assert a == [a[0]] + a[1..] && b == [b[0]] + b[1..];
    }
  }

  lemma HeadDominates(x: int, r: nat, y: int, s: nat, p: nat)
    requires r < p && s < p
    ensures x < y ==> x * p + r < y * p + s
    ensures y < x ==> y * p + s < x * p + r
    ensures x * p + r == y * p + s <==> x == y && r == s
  {
    if x < y {
      assert (x + 1) * p <= y * p;
    } else if y < x {
      assert (y + 1) * p <= x * p;
    }
  }
}
