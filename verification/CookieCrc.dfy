/** The CRC-16 of the cookie jar: a table of sixteen entries, looked up twice for every byte. It is the
    16-bit frame check sequence of section C.2 of RFC 1662.
  */
module CookieCrc {

  type Byte = bv8
  type Crc = bv16

  const POLYNOMIAL: Crc := 0x8408
  const INITIAL: Crc := 0xffff

  const CRC_TABLE: seq<Crc> := [
    0x0000, 0x1081, 0x2102, 0x3183,
    0x4204, 0x5285, 0x6306, 0x7387,
    0x8408, 0x9489, 0xa50a, 0xb58b,
    0xc60c, 0xd68d, 0xe70e, 0xf78f
  ]

  // ---------------------------------------------------------------------------
  // The reference: one bit at a time
  // ---------------------------------------------------------------------------

  /** Shifts one data bit into the register of the reflected CRC. */
  function ShiftBit(crc: Crc, bit: bool): Crc {
    var feedback := (crc & 1 == 1) != bit;
    if feedback then (crc >> 1) ^ POLYNOMIAL else crc >> 1
  }

  function ShiftBits(crc: Crc, bits: seq<bool>): Crc
    decreases |bits|
  {
    if bits == [] then crc else ShiftBits(ShiftBit(crc, bits[0]), bits[1..])
  }

  /** The bits of a byte in the order they are sent, least significant first. */
  function BitsOf(b: Byte): seq<bool> {
    [b & 1 == 1, b & 2 == 2, b & 4 == 4, b & 8 == 8, b & 16 == 16, b & 32 == 32, b & 64 == 64, b & 128 == 128]
  }

  function AllBits(bytes: seq<Byte>): seq<bool>
    decreases |bytes|
  {
    if bytes == [] then [] else BitsOf(bytes[0]) + AllBits(bytes[1..])
  }

  /** The checksum as section C.2 of RFC 1662 defines it. */
  function ReferenceChecksum(bytes: seq<Byte>): Crc {
    !ShiftBits(INITIAL, AllBits(bytes))
  }

  // ---------------------------------------------------------------------------
  // The table
  // ---------------------------------------------------------------------------

  function Lookup(index: Crc): Crc
    requires index < 16
  {
    CRC_TABLE[index as int]
  }

  /** The register after four bits. */
  function FourBits(crc: Crc, b0: bool, b1: bool, b2: bool, b3: bool): Crc {
    ShiftBit(ShiftBit(ShiftBit(ShiftBit(crc, b0), b1), b2), b3)
  }

  /** One lookup: the low four bits of `c` go into the register. */
  function NibbleStep(crc: Crc, c: Byte): Crc {
    ((crc >> 4) & 0x0fff) ^ Lookup((crc ^ (c as Crc)) & 15)
  }

  function ByteStep(crc: Crc, c: Byte): Crc {
    NibbleStep(NibbleStep(crc, c), c >> 4)
  }

  /** Each entry is four bit steps of its index. */
  lemma TableIsFourBitSteps(index: Crc)
    requires index < 16
    ensures Lookup(index) == FourBits(index, false, false, false, false)
  {
    if index < 4 {
      TableRow0(index);
    } else if index < 8 {
      TableRow1(index);
    } else if index < 12 {
      TableRow2(index);
    } else {
      TableRow3(index);
    }
  }

  lemma TableRow0(index: Crc)
    requires index < 4
    ensures Lookup(index) == FourBits(index, false, false, false, false)
  {
    if
    case index == 0 => assert index as int == 0;
    case index == 1 => assert index as int == 1;
    case index == 2 => assert index as int == 2;
    case index == 3 => assert index as int == 3;
  }

  lemma TableRow1(index: Crc)
    requires 4 <= index < 8
    ensures Lookup(index) == FourBits(index, false, false, false, false)
  {
    if
    case index == 4 => assert index as int == 4;
    case index == 5 => assert index as int == 5;
    case index == 6 => assert index as int == 6;
    case index == 7 => assert index as int == 7;
  }

  lemma TableRow2(index: Crc)
    requires 8 <= index < 12
    ensures Lookup(index) == FourBits(index, false, false, false, false)
  {
    if
    case index == 8 => assert index as int == 8;
    case index == 9 => assert index as int == 9;
    case index == 10 => assert index as int == 10;
    case index == 11 => assert index as int == 11;
  }

  lemma TableRow3(index: Crc)
    requires 12 <= index < 16
    ensures Lookup(index) == FourBits(index, false, false, false, false)
  {
    if
    case index == 12 => assert index as int == 12;
    case index == 13 => assert index as int == 13;
    case index == 14 => assert index as int == 14;
    case index == 15 => assert index as int == 15;
  }

  /** Four bits from any register are a shift and four bits from its low nibble, the data folded in.
      The low nibble fixes which steps feed back. */
  lemma FourBitsSplit(crc: Crc, c: Byte)
    ensures FourBits(crc, c & 1 == 1, c & 2 == 2, c & 4 == 4, c & 8 == 8)
            == ((crc >> 4) & 0x0fff) ^ FourBits((crc ^ (c as Crc)) & 15, false, false, false, false)
  {
    var index := (crc ^ (c as Crc)) & 15;
    if
    case index == 0 =>
    case index == 1 =>
    case index == 2 =>
    case index == 3 =>
    case index == 4 =>
    case index == 5 =>
    case index == 6 =>
    case index == 7 =>
    case index == 8 =>
    case index == 9 =>
    case index == 10 =>
    case index == 11 =>
    case index == 12 =>
    case index == 13 =>
    case index == 14 =>
    case index == 15 =>
  }

  lemma NibbleIsFourBits(crc: Crc, c: Byte)
    ensures NibbleStep(crc, c) == FourBits(crc, c & 1 == 1, c & 2 == 2, c & 4 == 4, c & 8 == 8)
  {
    FourBitsSplit(crc, c);
    TableIsFourBitSteps((crc ^ (c as Crc)) & 15);
  }

  lemma {:induction false} ShiftBitsAppend(crc: Crc, a: seq<bool>, b: seq<bool>)
    ensures ShiftBits(crc, a + b) == ShiftBits(ShiftBits(crc, a), b)
    decreases |a|
  {
    if a == [] {
      assert a + b == b;
    } else {
      assert (a + b)[1..] == a[1..] + b;
      ShiftBitsAppend(ShiftBit(crc, a[0]), a[1..], b);
    }
  }

  lemma ShiftFour(crc: Crc, b0: bool, b1: bool, b2: bool, b3: bool)
    ensures ShiftBits(crc, [b0, b1, b2, b3]) == FourBits(crc, b0, b1, b2, b3)
  {
    var c1 := ShiftBit(crc, b0);
    var c2 := ShiftBit(c1, b1);
    var c3 := ShiftBit(c2, b2);
    assert [b0, b1, b2, b3][1..] == [b1, b2, b3];
    assert [b1, b2, b3][1..] == [b2, b3];
    assert [b2, b3][1..] == [b3];
    assert [b3][1..] == [];
    calc {
      ShiftBits(crc, [b0, b1, b2, b3]);
      ShiftBits(c1, [b1, b2, b3]);
      ShiftBits(c2, [b2, b3]);
      ShiftBits(c3, [b3]);
      ShiftBits(ShiftBit(c3, b3), []);
      ShiftBit(c3, b3);
    }
  }

  /** The low four bits of a byte, in the order they are sent. */
  function LowBits(c: Byte): seq<bool> {
    [c & 1 == 1, c & 2 == 2, c & 4 == 4, c & 8 == 8]
  }

  lemma NibbleShifts(crc: Crc, c: Byte)
    ensures ShiftBits(crc, LowBits(c)) == NibbleStep(crc, c)
  {
    ShiftFour(crc, c & 1 == 1, c & 2 == 2, c & 4 == 4, c & 8 == 8);
    NibbleIsFourBits(crc, c);
  }

  lemma TwoNibbles(c: Byte)
    ensures BitsOf(c) == LowBits(c) + LowBits(c >> 4)
  {
  }

  /** The two lookups of a byte are eight bit steps. */
  lemma ByteIsEightBits(crc: Crc, c: Byte)
    ensures ByteStep(crc, c) == ShiftBits(crc, BitsOf(c))
  {
    TwoNibbles(c);
    ShiftBitsAppend(crc, LowBits(c), LowBits(c >> 4));
    NibbleShifts(crc, c);
    NibbleShifts(NibbleStep(crc, c), c >> 4);
  }

  /** The checksum loop, two table lookups a byte, computes the bit-by-bit reference. */
  method Checksum(str: seq<Byte>) returns (checksum: Crc)
    ensures checksum == ReferenceChecksum(str)
  {
    var crc := INITIAL;
    var i := 0;
    while i < |str|
      invariant 0 <= i <= |str|
      invariant ShiftBits(crc, AllBits(str[i..])) == ShiftBits(INITIAL, AllBits(str))
    {
      var c := str[i];
      ByteIsEightBits(crc, c);
      ShiftBitsAppend(crc, BitsOf(c), AllBits(str[i + 1..]));
      assert str[i..][1..] == str[i + 1..];
      crc := NibbleStep(crc, c);
      c := c >> 4;
      crc := NibbleStep(crc, c);
      i := i + 1;
    }
    checksum := !crc & 0xffff;
  }

  // ---------------------------------------------------------------------------
  // Error detection
  // ---------------------------------------------------------------------------

  /** Same data never brings different registers together. */
  lemma ShiftBitInvertible(s: Crc, t: Crc, bit: bool)
    ensures ShiftBit(s, bit) == ShiftBit(t, bit) ==> s == t
  {
  }

  lemma {:induction false} ShiftBitsInvertible(s: Crc, t: Crc, bits: seq<bool>)
    requires s != t
    ensures ShiftBits(s, bits) != ShiftBits(t, bits)
    decreases |bits|
  {
    if bits == [] {
    } else {
      ShiftBitInvertible(s, t, bits[0]);
      ShiftBitsInvertible(ShiftBit(s, bits[0]), ShiftBit(t, bits[0]), bits[1..]);
    }
  }

  /** The lowest `n` bits set. */
  function LowMask(n: nat): Crc {
    if n == 0 then 0 else (LowMask(n - 1) << 1) | 1
  }

  /** Two registers that agree above the mask after one bit each, the top bit included, agreed
      above the mask one bit wider before it. */
  lemma AgreementBefore(s: Crc, t: Crc, a: bool, b: bool, mask: Crc)
    requires ShiftBit(s, a) & !mask == ShiftBit(t, b) & !mask && mask & 0x8000 == 0
    ensures s & !((mask << 1) | 1) == t & !((mask << 1) | 1)
  {
  }

  /** Different bits leave a difference in the top bit. */
  lemma DifferentBits(s: Crc, bit: bool)
    ensures ShiftBit(s, bit) & 0x8000 != ShiftBit(s, !bit) & 0x8000
  {
  }

  lemma MaskBelowTop(n: nat)
    requires n <= 15
    ensures LowMask(n) & 0x8000 == 0
  {
    var m1 := LowMask(1);
    assert m1 == 1;
    var m3 := LowMask(3);
    assert m3 == 7;
    var m5 := LowMask(5);
    assert m5 == 0x1f;
    var m7 := LowMask(7);
    assert m7 == 0x7f;
    var m9 := LowMask(9);
    assert m9 == 0x1ff;
    var m11 := LowMask(11);
    assert m11 == 0x7ff;
    var m13 := LowMask(13);
    assert m13 == 0x1fff;
    var m15 := LowMask(15);
    assert m15 == 0x7fff;
  }

  ghost predicate AgreeAbove(s: Crc, t: Crc, n: nat) {
    s & !LowMask(n) == t & !LowMask(n)
  }

  lemma AgreeAboveStep(s: Crc, t: Crc, a: bool, b: bool, n: nat)
    requires n <= 14 && AgreeAbove(ShiftBit(s, a), ShiftBit(t, b), n)
    ensures AgreeAbove(s, t, n + 1)
  {
    MaskBelowTop(n);
    AgreementBefore(s, t, a, b, LowMask(n));
  }

  /** Two registers that become equal after `n` bits each agreed before them, except in the lowest
      `n` bits. */
  lemma {:induction false} AgreementBack(s: Crc, t: Crc, a: seq<bool>, b: seq<bool>)
    requires |a| == |b| <= 15
    requires ShiftBits(s, a) == ShiftBits(t, b)
    ensures AgreeAbove(s, t, |a|)
    decreases |a|
  {
    if a == [] {
      assert s == t;
    } else {
      AgreementBack(ShiftBit(s, a[0]), ShiftBit(t, b[0]), a[1..], b[1..]);
      AgreeAboveStep(s, t, a[0], b[0], |a[1..]|);
    }
  }

  lemma TopBitOutsideMask(s: Crc, t: Crc, mask: Crc)
    requires mask & 0x8000 == 0 && s & 0x8000 != t & 0x8000
    ensures s & !mask != t & !mask
  {
  }

  /** From one register, sixteen bits or fewer of different data never lead to the same register. */
  lemma {:induction false} WindowIsInjective(s: Crc, a: seq<bool>, b: seq<bool>)
    requires |a| == |b| <= 16 && a != b
    ensures ShiftBits(s, a) != ShiftBits(s, b)
    decreases |a|
  {
    if a[0] == b[0] {
      assert a == [a[0]] + a[1..] && b == [b[0]] + b[1..];
      WindowIsInjective(ShiftBit(s, a[0]), a[1..], b[1..]);
    } else {
      FirstBitShows(s, a, b);
    }
  }

  lemma FirstBitShows(s: Crc, a: seq<bool>, b: seq<bool>)
    requires 1 <= |a| == |b| <= 16 && a[0] != b[0]
    ensures ShiftBits(s, a) != ShiftBits(s, b)
  {
    var n := |a| - 1;
    var s1, t1 := ShiftBit(s, a[0]), ShiftBit(s, b[0]);
    DifferentBits(s, a[0]);
    MaskBelowTop(n);
    TopBitOutsideMask(s1, t1, LowMask(n));
    if ShiftBits(s1, a[1..]) == ShiftBits(t1, b[1..]) {
      AgreementBack(s1, t1, a[1..], b[1..]);
    }
  }

  lemma {:induction false} AllBitsLength(p: seq<Byte>)
    ensures |AllBits(p)| == 8 * |p|
    decreases |p|
  {
    if p == [] {
    } else {
      AllBitsLength(p[1..]);
    }
  }

  lemma {:induction false} AllBitsAt(p: seq<Byte>, i: nat, j: nat)
    requires i < |p| && j < 8
    ensures |AllBits(p)| == 8 * |p| && AllBits(p)[8 * i + j] == BitsOf(p[i])[j]
    decreases i
  {
    AllBitsLength(p);
    if i == 0 {
    } else {
      AllBitsAt(p[1..], i - 1, j);
      assert AllBits(p)[8 * i + j] == AllBits(p[1..])[8 * (i - 1) + j];
    }
  }

  lemma BitsDetermineByte(b: Byte, c: Byte)
    requires BitsOf(b) == BitsOf(c)
    ensures b == c
  {
    assert BitsOf(b)[0] == BitsOf(c)[0] && BitsOf(b)[1] == BitsOf(c)[1];
    assert BitsOf(b)[2] == BitsOf(c)[2] && BitsOf(b)[3] == BitsOf(c)[3];
    assert BitsOf(b)[4] == BitsOf(c)[4] && BitsOf(b)[5] == BitsOf(c)[5];
    assert BitsOf(b)[6] == BitsOf(c)[6] && BitsOf(b)[7] == BitsOf(c)[7];
  }

  lemma {:induction false} AllBitsInjective(p: seq<Byte>, q: seq<Byte>)
    requires |p| == |q| && AllBits(p) == AllBits(q)
    ensures p == q
    decreases |p|
  {
    if p == [] {
    } else {
      assert AllBits(p)[..8] == BitsOf(p[0]) && AllBits(q)[..8] == BitsOf(q[0]);
      assert AllBits(p)[8..] == AllBits(p[1..]) && AllBits(q)[8..] == AllBits(q[1..]);
      BitsDetermineByte(p[0], q[0]);
      AllBitsInjective(p[1..], q[1..]);
    }
  }

  /** The bit strings differ only in the sixteen bits from `start` on. */
  ghost predicate SameOutside(a: seq<bool>, b: seq<bool>, start: nat) {
    |a| == |b| && forall i :: 0 <= i < |a| && a[i] != b[i] ==> start <= i < start + 16
  }

  lemma BitBurstChangesRegister(s: Crc, a: seq<bool>, b: seq<bool>, start: nat)
    requires SameOutside(a, b, start) && a != b
    ensures ShiftBits(s, a) != ShiftBits(s, b)
  {
    var lo := if start < |a| then start else |a|;
    var hi := if start + 16 < |a| then start + 16 else |a|;
    var u := ShiftBits(s, a[..lo]);
    assert a[..lo] == b[..lo] && a[hi..] == b[hi..];
    assert a == a[..lo] + (a[lo..hi] + a[hi..]) && b == b[..lo] + (b[lo..hi] + b[hi..]);
    ShiftBitsAppend(s, a[..lo], a[lo..hi] + a[hi..]);
    ShiftBitsAppend(s, b[..lo], b[lo..hi] + b[hi..]);
    ShiftBitsAppend(u, a[lo..hi], a[hi..]);
    ShiftBitsAppend(u, b[lo..hi], b[hi..]);
    WindowIsInjective(u, a[lo..hi], b[lo..hi]);
    ShiftBitsInvertible(ShiftBits(u, a[lo..hi]), ShiftBits(u, b[lo..hi]), a[hi..]);
  }

  /** Every burst of at most sixteen wrong bits, aligned to bytes or not, changes the checksum. */
  lemma BurstChangesChecksum(p: seq<Byte>, q: seq<Byte>, start: nat)
    requires |p| == |q| && p != q
    requires SameOutside(AllBits(p), AllBits(q), start)
    ensures ReferenceChecksum(p) != ReferenceChecksum(q)
  {
    if AllBits(p) == AllBits(q) {
      AllBitsInjective(p, q);
    }
    BitBurstChangesRegister(INITIAL, AllBits(p), AllBits(q), start);
    ComplementInjective(ShiftBits(INITIAL, AllBits(p)), ShiftBits(INITIAL, AllBits(q)));
  }

  lemma ComplementInjective(s: Crc, t: Crc)
    requires s != t
    ensures !s != !t
  {
  }

  /** Damage confined to two adjacent bytes changes the checksum. */
  lemma TwoByteDamageDetected(p: seq<Byte>, q: seq<Byte>, k: nat)
    requires |p| == |q| && p != q
    requires forall i :: 0 <= i < |p| && p[i] != q[i] ==> k <= i <= k + 1
    ensures ReferenceChecksum(p) != ReferenceChecksum(q)
  {
    AllBitsLength(p);
    AllBitsLength(q);
    forall i | 0 <= i < 8 * |p| && AllBits(p)[i] != AllBits(q)[i]
      ensures 8 * k <= i < 8 * k + 16
    {
      AllBitsAt(p, i / 8, i % 8);
      AllBitsAt(q, i / 8, i % 8);
    }
    BurstChangesChecksum(p, q, 8 * k);
  }

  // ---------------------------------------------------------------------------
  // The check value
  // ---------------------------------------------------------------------------

  lemma OneMoreByte(crc: Crc, bytes: seq<Byte>)
    requires bytes != []
    ensures ShiftBits(crc, AllBits(bytes)) == ShiftBits(ByteStep(crc, bytes[0]), AllBits(bytes[1..]))
  {
    ByteIsEightBits(crc, bytes[0]);
    ShiftBitsAppend(crc, BitsOf(bytes[0]), AllBits(bytes[1..]));
  }

  /** Each of the characters "123456789" takes the register to the next of these values. */
  lemma CheckSteps()
    ensures ByteStep(0xffff, 0x31) == 0x2f8d
    ensures ByteStep(0x2f8d, 0x32) == 0x4d53
    ensures ByteStep(0x4d53, 0x33) == 0x634b
    ensures ByteStep(0x634b, 0x34) == 0x8b13
    ensures ByteStep(0x8b13, 0x35) == 0x44bf
    ensures ByteStep(0x44bf, 0x36) == 0x198d
    ensures ByteStep(0x198d, 0x37) == 0x1ac8
    ensures ByteStep(0x1ac8, 0x38) == 0xf795
    ensures ByteStep(0xf795, 0x39) == 0x6f91
  {
  }

  /** The check value of this CRC: the checksum of "123456789". */
  lemma CheckValue()
    ensures ReferenceChecksum([0x31, 0x32, 0x33, 0x34, 0x35, 0x36, 0x37, 0x38, 0x39]) == 0x906e
  {
    var text: seq<Byte> := [0x31, 0x32, 0x33, 0x34, 0x35, 0x36, 0x37, 0x38, 0x39];
    CheckSteps();
    OneMoreByte(0xffff, text[0..]);
    assert text[0..][0] == 0x31 && text[0..][1..] == text[1..];
    OneMoreByte(0x2f8d, text[1..]);
    assert text[1..][0] == 0x32 && text[1..][1..] == text[2..];
    OneMoreByte(0x4d53, text[2..]);
    assert text[2..][0] == 0x33 && text[2..][1..] == text[3..];
    OneMoreByte(0x634b, text[3..]);
    assert text[3..][0] == 0x34 && text[3..][1..] == text[4..];
    OneMoreByte(0x8b13, text[4..]);
    assert text[4..][0] == 0x35 && text[4..][1..] == text[5..];
    OneMoreByte(0x44bf, text[5..]);
    assert text[5..][0] == 0x36 && text[5..][1..] == text[6..];
    OneMoreByte(0x198d, text[6..]);
    assert text[6..][0] == 0x37 && text[6..][1..] == text[7..];
    OneMoreByte(0x1ac8, text[7..]);
    assert text[7..][0] == 0x38 && text[7..][1..] == text[8..];
    OneMoreByte(0xf795, text[8..]);
    assert text[8..][0] == 0x39 && text[8..][1..] == text[9..];
    assert AllBits(text[9..]) == [];
    assert text[0..] == text;
  }
}
