/** CRC-32 as the ZIP writer computes it (lib/services/webk/webapp/builder/js/descargas.js): a generated
    table of 256 words and one lookup a byte. Words are naturals below 2^32: `>>> 1` is / 2, `& 0xFF` is
    % 256 and `^` is Xor. */
module Checksums {
  import opened Bytes

  const POLYNOMIAL: nat := 0xEDB88320
  const ONES: nat := 0xFFFF_FFFF

  // === The definition: a shift register fed bit by bit ===

  /** One message bit through the register, lowest bit first. */
  function SerialBit(c: nat, bit: nat): nat
  {
    Xor(c / 2, if c % 2 != bit then POLYNOMIAL else 0)
  }

  /** The lowest n bits of w, one after the other. */
  function SerialBits(c: nat, w: nat, n: nat): nat
    decreases n, c
  {
    if n == 0 then c else SerialBits(SerialBit(c, w % 2), w / 2, n - 1)
  }

  function Serial(c: nat, bytes: seq<byte>): nat
    decreases |bytes|
  {
    if bytes == [] then c else Serial(SerialBits(c, bytes[0], 8), bytes[1..])
  }

  /** CRC-32 of a message: register preset to ones, result inverted. */
  function Crc32(bytes: seq<byte>): nat { Xor(Serial(ONES, bytes), ONES) }

  // === Shifting n times ===

  function Shift(c: nat): nat { if c % 2 == 1 then Xor(POLYNOMIAL, c / 2) else c / 2 }

  function Shifts(c: nat, n: nat): nat
    decreases n, c
  {
    if n == 0 then c else Shifts(Shift(c), n - 1)
  }

  lemma XorSwap(a: nat, b: nat, c: nat, d: nat)
    ensures Xor(Xor(a, b), Xor(c, d)) == Xor(Xor(a, c), Xor(b, d))
  {
    XorAssociates(a, b, Xor(c, d));
    XorAssociates(b, c, d);
    XorCommutes(b, c);
    XorAssociates(c, b, d);
    XorAssociates(a, c, Xor(b, d));
  }

  lemma ShiftIsXor(c: nat)
    ensures Shift(c) == Xor(if c % 2 == 1 then POLYNOMIAL else 0, c / 2)
  {
    XorCommutes(0, c / 2);
    XorWithZero(c / 2);
  }

  lemma ShiftLinear(a: nat, b: nat)
    ensures Shift(Xor(a, b)) == Xor(Shift(a), Shift(b))
  {
    var p, q := if a % 2 == 1 then POLYNOMIAL else 0, if b % 2 == 1 then POLYNOMIAL else 0;
    ShiftIsXor(a);
    ShiftIsXor(b);
    ShiftIsXor(Xor(a, b));
    XorHalves(a, b);
    XorSwap(p, a / 2, q, b / 2);
    XorZero(POLYNOMIAL, POLYNOMIAL);
    XorWithZero(p);
    XorCommutes(p, q);
    XorWithZero(q);
  }

  lemma {:induction false} ShiftsLinear(a: nat, b: nat, n: nat)
    ensures Shifts(Xor(a, b), n) == Xor(Shifts(a, n), Shifts(b, n))
    decreases n
  {
    if n > 0 {
      ShiftLinear(a, b);
      ShiftsLinear(Shift(a), Shift(b), n - 1);
    }
  }

  lemma DoubledProduct(y: nat, p: nat, q: nat)
    requires q == 2 * p
    ensures y * q == 2 * (y * p)
  {
    assert y * (2 * p) == 2 * (y * p);
  }

  lemma ShiftEven(c: nat)
    ensures Shift(2 * c) == c
  {
  }

  lemma ShiftOnce(c: nat, n: nat)
    requires n > 0
    ensures Shifts(c, n) == Shifts(Shift(c), n - 1)
  {
  }

  /** Words without low bits only move down. */
  lemma {:induction false} ShiftsHigh(y: nat, n: nat)
    ensures Shifts(y * Pow2(n), n) == y
    decreases n
  {
    if n > 0 {
      DoubledProduct(y, Pow2(n - 1), Pow2(n));
      ShiftEven(y * Pow2(n - 1));
      ShiftsHigh(y, n - 1);
      ShiftOnce(2 * (y * Pow2(n - 1)), n);
    }
  }

  /** The low and the high bits of a number XOR to it. */
  lemma SplitBits(h: nat, r: nat, n: nat)
    requires r < Pow2(n)
    ensures h * Pow2(n) + r == Xor(r, h * Pow2(n))
  {
    XorSplits(0, r, h, 0, n);
    XorCommutes(0, h);
    XorWithZero(h);
    XorWithZero(r);
    assert 0 * Pow2(n) + r == r && h * Pow2(n) + 0 == h * Pow2(n);
  }

  /** Why one lookup replaces n shifts: the low bits select the word, the rest moves down. */
  lemma TableStep(h: nat, r: nat, n: nat)
    requires r < Pow2(n)
    ensures Shifts(h * Pow2(n) + r, n) == Xor(Shifts(r, n), h)
  {
    var w := h * Pow2(n);
    SplitBits(h, r, n);
    ShiftsHigh(h, n);
    ShiftsOfParts(r, w, n);
  }

  lemma ShiftsOfParts(r: nat, w: nat, n: nat)
    requires w + r == Xor(r, w)
    ensures Shifts(w + r, n) == Xor(Shifts(r, n), Shifts(w, n))
  {
    ShiftsLinear(r, w, n);
  }

  lemma SerialBitStep(s: nat, w: nat)
    ensures Shift(Xor(s, w)) == Xor(SerialBit(s, w % 2), w / 2)
  {
    var p := if s % 2 != w % 2 then POLYNOMIAL else 0;
    XorHalves(s, w);
    ShiftIsXor(Xor(s, w));
    XorCommutes(p, Xor(s / 2, w / 2));
    XorAssociates(s / 2, w / 2, p);
    XorCommutes(w / 2, p);
    XorAssociates(s / 2, p, w / 2);
  }

  /** Feeding n bits one at a time is adding them first and then shifting n times. */
  lemma {:induction false} SerialIsShifts(s: nat, w: nat, n: nat)
    requires w < Pow2(n)
    ensures SerialBits(s, w, n) == Shifts(Xor(s, w), n)
    decreases n
  {
    if n > 0 {
      SerialBitStep(s, w);
      SerialIsShifts(SerialBit(s, w % 2), w / 2, n - 1);
    } else {
      XorWithZero(s);
    }
  }

  // === The code ===

  ghost predicate IsTable(t: seq<nat>)
  {
    |t| == 256 && forall n :: 0 <= n < 256 ==> t[n] == Shifts(n, 8)
  }

  /** The generated table: eight conditional shifts of every byte value. */
  method BuildTable() returns (t: seq<nat>)
    ensures IsTable(t)
  {
    var table := new nat[256](_ => 0);
    for n := 0 to 256
      invariant forall m :: 0 <= m < n ==> table[m] == Shifts(m, 8)
    {
      var c: nat := n;
      for k := 0 to 8
        invariant Shifts(c, 8 - k) == Shifts(n, 8)
      {
        c := if c % 2 == 1 then Xor(POLYNOMIAL, c / 2) else c / 2;
      }
      table[n] := c;
    }
    t := table[..];
  }

  lemma XorWithByte(c: nat, b: byte)
    ensures Xor(c, b) / 256 == c / 256
  {
    assert Pow2(8) == 256;
    XorSplits(c / 256, c % 256, 0, b, 8);
    XorBound(c % 256, b, 8);
    XorWithZero(c / 256);
  }

  lemma LookupIsSerial(t: seq<nat>, c: nat, b: byte)
    requires IsTable(t)
    ensures Xor(t[Xor(c, b) % 256], c / 256) == SerialBits(c, b, 8)
  {
    assert Pow2(8) == 256;
    SerialIsShifts(c, b, 8);
    TableStep(Xor(c, b) / 256, Xor(c, b) % 256, 8);
    XorWithByte(c, b);
  }

  /** The table-driven loop computes the CRC defined bit by bit. */
  method ComputeCrc32(table: seq<nat>, bytes: seq<byte>) returns (r: nat)
    requires IsTable(table)
    ensures r == Crc32(bytes)
    ensures r < 0x1_0000_0000
  {
    var c := ONES;
    for i := 0 to |bytes|
      invariant Serial(c, bytes[i..]) == Serial(ONES, bytes)
    {
      assert bytes[i..][0] == bytes[i] && bytes[i..][1..] == bytes[i + 1..];
      LookupIsSerial(table, c, bytes[i]);
      c := Xor(table[Xor(c, bytes[i]) % 256], c / 256);
    }
    r := Xor(c, ONES);
    CrcIsWord(bytes);
  }

  // === Words stay words ===

  lemma PowersOfWord()
    ensures Pow2(31) == 0x8000_0000 && Pow2(32) == 0x1_0000_0000
  {
    assert Pow2(8) == 256;
    Pow2Add(8, 8);
    Pow2Add(16, 16);
    assert Pow2(32) == 2 * Pow2(31);
  }

  lemma SerialBitIsWord(c: nat, bit: nat)
    requires c < 0x1_0000_0000
    ensures SerialBit(c, bit) < 0x1_0000_0000
  {
    PowersOfWord();
    XorBound(c / 2, if c % 2 != bit then POLYNOMIAL else 0, 32);
  }

  lemma {:induction false} SerialBitsIsWord(c: nat, w: nat, n: nat)
    requires c < 0x1_0000_0000
    ensures SerialBits(c, w, n) < 0x1_0000_0000
    decreases n
  {
    if n > 0 {
      SerialBitIsWord(c, w % 2);
      SerialBitsIsWord(SerialBit(c, w % 2), w / 2, n - 1);
    }
  }

  lemma {:induction false} SerialIsWord(c: nat, bytes: seq<byte>)
    requires c < 0x1_0000_0000
    ensures Serial(c, bytes) < 0x1_0000_0000
    decreases |bytes|
  {
    if bytes != [] {
      SerialBitsIsWord(c, bytes[0], 8);
      SerialIsWord(SerialBits(c, bytes[0], 8), bytes[1..]);
    }
  }

  lemma CrcIsWord(bytes: seq<byte>)
    ensures Crc32(bytes) < 0x1_0000_0000
  {
    SerialIsWord(ONES, bytes);
    PowersOfWord();
    XorBound(Serial(ONES, bytes), ONES, 32);
  }

  // === What the checksum is for: a damaged byte never goes unnoticed ===

  /** The top bit of a shifted word tells whether the polynomial was added. */
  lemma ShiftTopBit(a: nat)
    requires a < 0x1_0000_0000
    ensures Shift(a) < 0x1_0000_0000
    ensures Shift(a) >= 0x8000_0000 <==> a % 2 == 1
  {
    PowersOfWord();
    var p := POLYNOMIAL - 0x8000_0000;
    XorSplits(1, p, 0, a / 2, 31);
    XorBound(p, a / 2, 31);
    XorWithZero(1);
    assert 1 * Pow2(31) + p == POLYNOMIAL && 0 * Pow2(31) + a / 2 == a / 2;
  }

  lemma ShiftInjective(a: nat, b: nat)
    requires a < 0x1_0000_0000 && b < 0x1_0000_0000
    ensures Shift(a) == Shift(b) <==> a == b
  {
    ShiftTopBit(a);
    ShiftTopBit(b);
    XorCommutes(POLYNOMIAL, a / 2);
    XorCommutes(POLYNOMIAL, b / 2);
    XorCancels(a / 2, b / 2, POLYNOMIAL);
  }

  lemma {:induction false} ShiftsInjective(a: nat, b: nat, n: nat)
    requires a < 0x1_0000_0000 && b < 0x1_0000_0000
    ensures Shifts(a, n) == Shifts(b, n) <==> a == b
    decreases n
  {
    if n > 0 {
      ShiftTopBit(a);
      ShiftTopBit(b);
      ShiftInjective(a, b);
      ShiftsInjective(Shift(a), Shift(b), n - 1);
    }
  }

  /** One byte through the register: different states stay different, and so do different bytes. */
  lemma ByteInjective(a: nat, b: nat, x: byte, y: byte)
    requires a < 0x1_0000_0000 && b < 0x1_0000_0000
    ensures SerialBits(a, x, 8) == SerialBits(b, x, 8) <==> a == b
    ensures SerialBits(a, x, 8) == SerialBits(a, y, 8) <==> x == y
  {
    PowersOfWord();
    assert Pow2(8) == 256;
    SerialIsShifts(a, x, 8);
    SerialIsShifts(b, x, 8);
    SerialIsShifts(a, y, 8);
    XorBound(a, x, 32);
    XorBound(b, x, 32);
    XorBound(a, y, 32);
    ShiftsInjective(Xor(a, x), Xor(b, x), 8);
    ShiftsInjective(Xor(a, x), Xor(a, y), 8);
    XorCancels(a, b, x);
    XorCommutes(a, x);
    XorCommutes(a, y);
    XorCancels(x, y, a);
  }

  lemma {:induction false} SerialInjective(a: nat, b: nat, bytes: seq<byte>)
    requires a < 0x1_0000_0000 && b < 0x1_0000_0000
    ensures Serial(a, bytes) == Serial(b, bytes) <==> a == b
    decreases |bytes|
  {
    if bytes != [] {
      ByteInjective(a, b, bytes[0], bytes[0]);
      SerialBitsIsWord(a, bytes[0], 8);
      SerialBitsIsWord(b, bytes[0], 8);
      SerialInjective(SerialBits(a, bytes[0], 8), SerialBits(b, bytes[0], 8), bytes[1..]);
    }
  }

  lemma {:induction false} SerialDetects(c: nat, bytes: seq<byte>, i: nat, b: byte)
    requires c < 0x1_0000_0000 && i < |bytes|
    ensures Serial(c, bytes[i := b]) == Serial(c, bytes) <==> bytes[i] == b
    decreases |bytes|
  {
    SerialBitsIsWord(c, bytes[0], 8);
    if i == 0 {
      assert bytes[0 := b][1..] == bytes[1..];
      SerialBitsIsWord(c, b, 8);
      ByteInjective(c, c, bytes[0], b);
      SerialInjective(SerialBits(c, b, 8), SerialBits(c, bytes[0], 8), bytes[1..]);
    } else {
      assert bytes[i := b][1..] == bytes[1..][i - 1 := b];
      SerialDetects(SerialBits(c, bytes[0], 8), bytes[1..], i - 1, b);
    }
  }

  /** Rewriting one byte of any message changes its CRC exactly when it changes the byte. */
  lemma DamagedByteDetected(bytes: seq<byte>, i: nat, b: byte)
    requires i < |bytes|
    ensures Crc32(bytes[i := b]) == Crc32(bytes) <==> bytes[i] == b
  {
    SerialDetects(ONES, bytes, i, b);
    XorCancels(Serial(ONES, bytes[i := b]), Serial(ONES, bytes), ONES);
  }
}
