/** 160-bit identifiers (rust/mainline/src/common/id.rs): XOR, the bit-level distance and BEP 42 identifiers. */
module Ids {
  import opened Bytes

  const ID_SIZE := 20
  const MAX_DISTANCE := 160
  const CASTAGNOLI := 0x82F63B78

  type Id = s: seq<byte> | |s| == 20 witness seq(20, i => 0)

  // === XOR and distance ===

  function ByteXor(a: byte, b: byte): (r: byte)
    ensures r == Xor(a, b)
  {
    assert Pow2(8) == 256;
    XorBound(a, b, 8);
    Xor(a, b)
  }

  function XorBytes(a: seq<byte>, b: seq<byte>): (r: seq<byte>)
    requires |a| == |b|
    ensures |r| == |a|
  {
    seq(|a|, i requires 0 <= i < |a| => ByteXor(a[i], b[i]))
  }

  /** `Id::xor` fills a zeroed buffer byte by byte. */
  method XorIds(a: Id, b: Id) returns (r: Id)
    ensures r == XorBytes(a, b)
  {
    var result := new byte[20](i => 0);
    for i := 0 to 20
      invariant forall k :: 0 <= k < i ==> result[k] == ByteXor(a[k], b[k])
    {
      result[i] := ByteXor(a[i], b[i]);
    }
    r := result[..];
  }

  /** Byte-wise XOR is XOR of the 160-bit numbers. */
  lemma {:induction false} XorBytesIsXor(a: seq<byte>, b: seq<byte>)
    requires |a| == |b|
    ensures BigEndian(XorBytes(a, b)) == Xor(BigEndian(a), BigEndian(b))
  {
    if a != [] {
      XorBytesIsXor(a[1..], b[1..]);
      assert XorBytes(a, b)[1..] == XorBytes(a[1..], b[1..]);
      BigEndianBound(a[1..]);
      BigEndianBound(b[1..]);
      XorSplits(a[0], BigEndian(a[1..]), b[0], BigEndian(b[1..]), 8 * (|a| - 1));
    }
  }

  /** Leading zero bits of one byte (`u8::leading_zeros`). */
  function ByteLeadingZeros(b: byte): (z: nat)
    ensures z <= 8
  {
    if b >= 128 then 0 else if b >= 64 then 1 else if b >= 32 then 2 else if b >= 16 then 3
    else if b >= 8 then 4 else if b >= 4 then 5 else if b >= 2 then 6 else if b >= 1 then 7 else 8
  }

  function LeadingZeroBits(s: seq<byte>): (z: nat)
    ensures z <= 8 * |s|
  {
    if s == [] then 0
    else if s[0] != 0 then ByteLeadingZeros(s[0])
    else 8 + LeadingZeroBits(s[1..])
  }

  /** `Id::leading_zeros`: stop at the first byte that is not zero. */
  method LeadingZeros(id: Id) returns (z: nat)
    ensures z == LeadingZeroBits(id)
  {
    for i := 0 to 20
      invariant LeadingZeroBits(id) == 8 * i + LeadingZeroBits(id[i..])
    {
      if id[i] != 0 {
        return i * 8 + ByteLeadingZeros(id[i]);
      }
      assert id[i..][1..] == id[i + 1..];
    }
    return 160;
  }

  function Distance(a: Id, b: Id): (d: nat)
    ensures d <= MAX_DISTANCE
  {
    MAX_DISTANCE - LeadingZeroBits(XorBytes(a, b))
  }

  /** The XOR of two ids as a number: what `xor(target).cmp(..)` orders by. */
  function XorValue(a: Id, b: Id): nat { BigEndian(XorBytes(a, b)) }

  lemma ByteBitLength(x: byte)
    requires x != 0
    ensures ByteLeadingZeros(x) < 8
    ensures Pow2(7 - ByteLeadingZeros(x)) <= x < Pow2(8 - ByteLeadingZeros(x))
  {
    assert Pow2(3) == 8 && Pow2(5) == 32 && Pow2(8) == 256;
  }

  lemma ScaleBounds(lo: nat, x: nat, hi: nat, r: nat, p: nat)
    requires lo <= x < hi && r < p
    ensures lo * p <= x * p + r < hi * p
  {
    LeadingDigit(x, r, p, hi);
    assert lo * p <= x * p;
  }

  /** Eight bits a byte minus the leading zeros is the bit length of the number. */
  lemma {:induction false} BitLength(s: seq<byte>)
    ensures var d := 8 * |s| - LeadingZeroBits(s);
            if d == 0 then BigEndian(s) == 0 else Pow2(d - 1) <= BigEndian(s) < Pow2(d)
  {
    if s != [] {
      if s[0] == 0 {
        BitLength(s[1..]);
      } else {
        var z, m := ByteLeadingZeros(s[0]), 8 * (|s| - 1);
        ByteBitLength(s[0]);
        BigEndianBound(s[1..]);
        Pow2Add(7 - z, m);
        Pow2Add(8 - z, m);
        ScaleBounds(Pow2(7 - z), s[0], Pow2(8 - z), BigEndian(s[1..]), Pow2(m));
      }
    }
  }

  /** `distance` is the bit length of the XOR: 0 only for equal ids, and d > 0 exactly when
      2^(d-1) <= a XOR b < 2^d as 160-bit numbers. */
  lemma DistanceIsBitLength(a: Id, b: Id, d: nat)
    ensures Distance(a, b) == 0 <==> a == b
    ensures d > 0 ==> (Distance(a, b) == d <==> Pow2(d - 1) <= Xor(BigEndian(a), BigEndian(b)) < Pow2(d))
  {
    var e := Distance(a, b);
    BitLength(XorBytes(a, b));
    XorBytesIsXor(a, b);
    Bytes.XorZero(BigEndian(a), BigEndian(b));
    LexIsNumeric(a, b);
    if d > 0 && d < e {
      Pow2Monotone(d, e - 1);
    } else if e < d {
      Pow2Monotone(e, d - 1);
    }
  }

  /** Two ids at one XOR distance from a target are the same id. */
  lemma XorInjective(a: Id, b: Id, target: Id)
    ensures XorValue(a, target) == XorValue(b, target) <==> a == b
  {
    XorBytesIsXor(a, target);
    XorBytesIsXor(b, target);
    XorCancels(BigEndian(a), BigEndian(b), BigEndian(target));
    LexIsNumeric(a, b);
  }

  /** The distance is symmetric and ultrametric: no detour is shorter than its longer leg. */
  lemma DistanceIsUltrametric(a: Id, b: Id, c: Id)
    ensures Distance(a, b) == Distance(b, a)
    ensures Distance(a, c) <= if Distance(a, b) >= Distance(b, c) then Distance(a, b) else Distance(b, c)
  {
    var x, y, z := BigEndian(a), BigEndian(b), BigEndian(c);
    XorCommutes(x, y);
    DistanceAtMost(a, b, Distance(b, a));
    DistanceAtMost(b, a, Distance(b, a));
    DistanceAtMost(a, b, Distance(a, b));
    DistanceAtMost(b, a, Distance(a, b));
    var d := if Distance(a, b) >= Distance(b, c) then Distance(a, b) else Distance(b, c);
    DistanceAtMost(a, b, d);
    DistanceAtMost(b, c, d);
    DistanceAtMost(a, c, d);
    XorAssociates(Xor(x, y), y, z);
    XorAssociates(x, y, y);
    XorZero(y, y);
    XorWithZero(x);
    XorBound(Xor(x, y), Xor(y, z), d);
  }

  lemma DistanceAtMost(a: Id, b: Id, d: nat)
    ensures Distance(a, b) <= d <==> Xor(BigEndian(a), BigEndian(b)) < Pow2(d)
  {
    var e := Distance(a, b);
    BitLength(XorBytes(a, b));
    XorBytesIsXor(a, b);
    if e <= d {
      Pow2Monotone(e, d);
    } else {
      Pow2Monotone(d, e - 1);
    }
  }

  // === BEP 42: ids bound to an IPv4 address ===

  datatype Ipv4 = Ipv4(a: byte, b: byte, c: byte, d: byte)

  function ShiftCrc32c(c: nat, n: nat): nat
    decreases n
  {
    if n == 0 then c
    else ShiftCrc32c(if c % 2 == 1 then Xor(CASTAGNOLI, c / 2) else c / 2, n - 1)
  }

  function UpdateCrc32c(c: nat, bytes: seq<byte>): nat
    decreases |bytes|
  {
    if bytes == [] then c
    else UpdateCrc32c(ShiftCrc32c(Xor(c, bytes[0]), 8), bytes[1..])
  }

  /** CRC-32/ISCSI (Castagnoli), the checksum BEP 42 prescribes. */
  function Crc32c(bytes: seq<byte>): nat { Xor(UpdateCrc32c(0xFFFF_FFFF, bytes), 0xFFFF_FFFF) }

  function WordBytes(x: nat): (r: seq<byte>)
    ensures |r| == 4
  {
    [x / 0x100_0000 % 256, x / 0x1_0000 % 256, x / 0x100 % 256, x % 256]
  }

  /** The bytes of `(ip & 0x030f3fff) | (r << 29)`: the mask clears the bits that `r << 29` sets. */
  function MaskedIp(ip: Ipv4, r: byte): (bytes: seq<byte>)
    ensures |bytes| == 4
  {
    [ip.a % 4 + r % 8 * 32, ip.b % 16, ip.c % 64, ip.d]
  }

  function IdPrefix(ip: Ipv4, r: byte): (p: seq<byte>)
    ensures |p| == 3
  {
    WordBytes(Crc32c(MaskedIp(ip, r)))[..3]
  }

  /** The first two bytes and the five high bits of the third. */
  function First21Bits(bytes: seq<byte>): (p: seq<byte>)
    requires |bytes| >= 3
    ensures |p| == 3
  {
    [bytes[0], bytes[1], bytes[2] / 8 * 8]
  }

  predicate IsPrivate(ip: Ipv4)
  {
    ip.a == 10 || (ip.a == 172 && 16 <= ip.b <= 31) || (ip.a == 192 && ip.b == 168)
  }

  /** Private, link-local and loopback addresses, for which BEP 42 asks nothing. */
  predicate IsLocal(ip: Ipv4)
  {
    IsPrivate(ip) || (ip.a == 169 && ip.b == 254) || ip.a == 127
  }

  predicate IsValidForIp(id: Id, ip: Ipv4)
  {
    IsLocal(ip) || First21Bits(id) == First21Bits(IdPrefix(ip, id[19]))
  }

  /** `from_ipv4_and_r` overwrites the first 21 bits and the last byte, and leaves every other bit alone. */
  method FromIpv4AndR(bytes: Id, ip: Ipv4, r: byte) returns (id: Id)
    ensures IsValidForIp(id, ip)
    ensures id[19] == r && First21Bits(id) == First21Bits(IdPrefix(ip, r))
    ensures id[3..19] == bytes[3..19] && id[2] % 8 == bytes[2] % 8
  {
    id := OverwritePrefix(bytes, IdPrefix(ip, r), r);
  }

  method OverwritePrefix(bytes: Id, prefix: seq<byte>, r: byte) returns (id: Id)
    requires |prefix| == 3
    ensures First21Bits(id) == First21Bits(prefix) && id[19] == r
    ensures id[3..19] == bytes[3..19] && id[2] % 8 == bytes[2] % 8
  {
    id := bytes;
    id := id[0 := prefix[0]];
    id := id[1 := prefix[1]];
    MixBits(prefix[2], bytes[2]);
    id := id[2 := prefix[2] / 8 * 8 + bytes[2] % 8];
    id := id[19 := r];
  }

  lemma MixBits(p: byte, b: byte)
    ensures var m := p / 8 * 8 + b % 8; m < 256 && m / 8 * 8 == p / 8 * 8 && m % 8 == b % 8
  {
  }

  /** Two valid ids of one public address whose last bytes agree in the three bits that `r << 29`
      keeps agree on their first 21 bits. */
  lemma ValidIdsAgree(a: Id, b: Id, ip: Ipv4)
    requires !IsLocal(ip) && IsValidForIp(a, ip) && IsValidForIp(b, ip)
    requires a[19] % 8 == b[19] % 8
    ensures First21Bits(a) == First21Bits(b)
  {
    assert MaskedIp(ip, a[19]) == MaskedIp(ip, b[19]);
  }
}
