/**
 IPv4 prefixes (section 3.1 of RFC 4632).  Membership compares the leading bits
 after a shift; the lemmas show that this is ANDing with the mask the driver
 prints, and that it is lying in one interval of addresses.
 */
module Subnet {
  import opened Outcomes
  import opened Text
  import opened Ipv4

  function Pow2(n: nat): (p: nat)
    ensures p >= 1
  {
    if n == 0 then 1 else 2 * Pow2(n - 1)
  }

  /** a >> k. */
  function ShiftRight(a: nat, k: nat): (r: nat)
    ensures r <= a
  {
    if k == 0 then a else ShiftRight(a / 2, k - 1)
  }

  /** The k bits a shift by k drops. */
  function LowBits(a: nat, k: nat): (r: nat)
    ensures r <= a && r < Pow2(k)
  {
    if k == 0 then 0 else 2 * LowBits(a / 2, k - 1) + a % 2
  }

  /** Bitwise AND of the low n bits. */
  function And(a: nat, b: nat, n: nat): nat {
    if n == 0 then 0 else 2 * And(a / 2, b / 2, n - 1) + (a % 2) * (b % 2)
  }

  /** A prefix with its length; netip only builds valid ones. */
  datatype RawPrefix = Prefix(addr: Addr, bits: nat)
  type Prefix = p: RawPrefix | p.bits <= 32 witness Prefix(0, 0)

  /** How many addresses share the first `bits` bits. */
  function BlockSize(bits: nat): (n: nat)
    requires bits <= 32
    ensures n >= 1
  {
    Pow2(32 - bits)
  }

  /** netip.Prefix.Masked: the host bits cleared. */
  function Masked(p: Prefix): Prefix {
    Prefix(p.addr - LowBits(p.addr, 32 - p.bits), p.bits)
  }

  /** netip.Prefix.Contains: the leading bits agree. */
  predicate Contains(p: Prefix, a: Addr) {
    ShiftRight(a, 32 - p.bits) == ShiftRight(p.addr, 32 - p.bits)
  }

  function First(p: Prefix): Addr {
    Masked(p).addr
  }

  function Last(p: Prefix): int {
    First(p) + BlockSize(p.bits) - 1
  }

  // ----- Shifts and powers -----

  lemma {:induction false} PowSplit(j: nat, k: nat)
    ensures Pow2(j + k) == Pow2(j) * Pow2(k)
  {
    if j > 0 {
      PowSplit(j - 1, k);
    }
  }

  lemma {:induction false} PowMonotone(k: nat, n: nat)
    requires k <= n
    ensures Pow2(k) <= Pow2(n)
  {
    if k < n {
      PowMonotone(k, n - 1);
    }
  }

  lemma {:induction false} Pow32()
    ensures Pow2(32) == 0x1_0000_0000 && Pow2(24) == 0x100_0000 && Pow2(16) == 0x1_0000 && Pow2(8) == 256
  {
    assert Pow2(8) == 256;
    PowSplit(8, 8);
    PowSplit(8, 16);
    PowSplit(8, 24);
  }

  lemma {:induction false} ScaleOrder(x: int, y: int, m: nat)
    ensures x <= y ==> x * m <= y * m
  {
    if x <= y {
      assert (y - x) * m >= 0;
      assert y * m == x * m + (y - x) * m;
    }
  }

  lemma {:induction false} SplitBits(a: nat, k: nat)
    ensures a == ShiftRight(a, k) * Pow2(k) + LowBits(a, k)
  {
    if k > 0 {
      SplitBits(a / 2, k - 1);
      Doubling(ShiftRight(a / 2, k - 1), Pow2(k - 1));
    }
  }

  lemma {:induction false} Doubling(q: nat, m: nat)
    ensures q * (2 * m) == 2 * (q * m)
  {
  }

  /** Numbers with quotients q and t lie in the same block of m exactly when the quotients agree. */
  lemma {:induction false} SameBlock(q: nat, r: nat, t: nat, m: nat)
    requires r < m
    ensures q == t <==> t * m <= q * m + r < t * m + m
  {
    ScaleOrder(t + 1, q, m);
    ScaleOrder(q + 1, t, m);
    assert (t + 1) * m == t * m + m;
    assert (q + 1) * m == q * m + m;
  }

  /** Two numbers share their leading bits exactly when one lies in the other's block. */
  lemma {:induction false} ShiftInterval(a: nat, b: nat, k: nat)
    ensures ShiftRight(a, k) == ShiftRight(b, k) <==> b - LowBits(b, k) <= a < b - LowBits(b, k) + Pow2(k)
  {
    SplitBits(a, k);
    SplitBits(b, k);
    SameBlock(ShiftRight(a, k), LowBits(a, k), ShiftRight(b, k), Pow2(k));
  }

  // ----- Membership -----

  /** Membership is lying in one interval, whose ends are addresses. */
  lemma {:induction false} ContainsIsInterval(p: Prefix, a: Addr)
    ensures Contains(p, a) <==> First(p) <= a <= Last(p)
    ensures Contains(p, a) <==> Contains(Masked(p), a)
  {
    hide ShiftRight, LowBits, Pow2;
    ShiftInterval(a, p.addr, 32 - p.bits);
    ShiftInterval(Masked(p).addr, p.addr, 32 - p.bits);
  }

  lemma {:induction false} LastIsAddress(p: Prefix)
    ensures Last(p) < 0x1_0000_0000
  {
    SplitBits(p.addr, 32 - p.bits);
    PowSplit(p.bits, 32 - p.bits);
    Pow32();
    WholeBlock(ShiftRight(p.addr, 32 - p.bits), LowBits(p.addr, 32 - p.bits), Pow2(32 - p.bits), Pow2(p.bits));
  }

  lemma {:induction false} WholeBlock(q: nat, r: nat, m: nat, n: nat)
    requires q * m + r < n * m
    ensures q * m + m <= n * m
  {
    ScaleOrder(n, q, m);
    ScaleOrder(q + 1, n, m);
    assert (q + 1) * m == q * m + m;
  }

  // ----- Masks -----

  /** ^uint32(0) << (32 - bits); a shift by the full width gives zero, as the code's special case does. */
  function Mask(bits: nat): (m: Addr)
    requires bits <= 32
  {
    (0xFFFF_FFFF * BlockSize(bits)) % 0x1_0000_0000
  }

  lemma {:induction false} MaskValue(bits: nat)
    requires bits <= 32
    ensures Mask(bits) == 0x1_0000_0000 - BlockSize(bits)
  {
    var m := BlockSize(bits);
    PowMonotone(32 - bits, 32);
    Pow32();
    ModWord(m);
  }

  lemma {:induction false} ModWord(m: nat)
    requires 1 <= m <= 0x1_0000_0000
    ensures (0xFFFF_FFFF * m) % 0x1_0000_0000 == 0x1_0000_0000 - m
  {
    assert 0xFFFF_FFFF * m == (m - 1) * 0x1_0000_0000 + (0x1_0000_0000 - m);
  }

  /** A mask's length can be read off it, so the dotted text and the bit count denote one prefix. */
  lemma {:induction false} MaskInjective(b: nat, c: nat)
    requires b <= 32 && c <= 32 && Mask(b) == Mask(c)
    ensures b == c
  {
    MaskValue(b);
    MaskValue(c);
    if b < c {
      PowMonotone(32 - c, 31 - b);
    } else if c < b {
      PowMonotone(32 - b, 31 - c);
    }
  }

  /** ANDing with n ones keeps the number. */
  lemma {:induction false} AndOnes(a: nat, n: nat)
    requires a < Pow2(n)
    ensures And(a, Pow2(n) - 1, n) == a
  {
    if n > 0 {
      AndOnes(a / 2, n - 1);
      assert (Pow2(n) - 1) / 2 == Pow2(n - 1) - 1;
    }
  }

  /** ANDing with n-k ones followed by k zeros clears the low k bits. */
  lemma {:induction false} AndClearsLowBits(a: nat, n: nat, k: nat)
    requires k <= n && a < Pow2(n)
    requires Pow2(k) <= Pow2(n)
    ensures And(a, Pow2(n) - Pow2(k), n) == a - LowBits(a, k)
  {
    if k == 0 {
      AndOnes(a, n);
    } else {
      AndClearsLowBits(a / 2, n - 1, k - 1);
      var b := Pow2(n) - Pow2(k);
      assert b / 2 == Pow2(n - 1) - Pow2(k - 1) && b % 2 == 0;
    }
  }

  /** Membership in the masked prefix is ANDing with the driver's mask. */
  lemma {:induction false} ContainsIsMask(p: Prefix, a: Addr)
    ensures Contains(p, a) <==> And(a, Mask(p.bits), 32) == Masked(p).addr
  {
    MaskClears(a, p.bits);
    SameHead(a, p.addr, 32 - p.bits);
  }

  lemma {:induction false} MaskClears(a: Addr, bits: nat)
    requires bits <= 32
    ensures And(a, Mask(bits), 32) == a - LowBits(a, 32 - bits)
  {
    Pow32();
    PowMonotone(32 - bits, 32);
    MaskValue(bits);
    AndClearsLowBits(a, 32, 32 - bits);
  }

  lemma {:induction false} SameHead(a: nat, b: nat, k: nat)
    ensures ShiftRight(a, k) == ShiftRight(b, k) <==> a - LowBits(a, k) == b - LowBits(b, k)
  {
    ShiftInterval(a, b, k);
    ShiftInterval(b, a, k);
    SplitBits(a, k);
    SplitBits(b, k);
  }

  /** prefixBitsToNetmask: the mask's four bytes, or nothing out of range. */
  function PrefixBitsToNetmask(bits: int): string {
    if bits < 0 || bits > 32 then "" else Dotted(Mask(bits))
  }

  /** net.CIDRMask's byte i: eight ones, a partial byte, or zero. */
  function CidrMaskByte(bits: nat, i: nat): (b: nat)
    requires i < 4
    ensures b < 256
  {
    if bits >= 8 * (i + 1) then 255
    else if bits <= 8 * i then 0
    else 255 - (Pow2(8 * (i + 1) - bits) - 1) % 256
  }

  /** maskStringFromPrefix on a valid IPv4 prefix. */
  function MaskStringFromPrefix(p: Prefix): string {
    DottedOctets(CidrMaskByte(p.bits, 0), CidrMaskByte(p.bits, 1), CidrMaskByte(p.bits, 2), CidrMaskByte(p.bits, 3))
  }

  /** A mask whose partial byte is byte i, in the two forms the printers use. */
  lemma {:induction false} MaskBytes(bits: nat, i: nat)
    requires i < 4 && 8 * i < bits <= 8 * (i + 1)
    ensures Mask(bits)
            == FromOctets(CidrMaskByte(bits, 0), CidrMaskByte(bits, 1), CidrMaskByte(bits, 2), CidrMaskByte(bits, 3))
  {
    hide Mask, FromOctets, CidrMaskByte;
    var t := 8 * (i + 1) - bits;
    PowMonotone(t, 7);
    MaskValue(bits);
    PowSplit(t, 24 - 8 * i);
    ByteWeightIsPower(i);
    MaskFromPartialByte(bits, i, Pow2(t));
  }

  lemma {:induction false} ByteWeightIsPower(i: nat)
    requires i < 4
    ensures Pow2(24 - 8 * i) == ByteWeight(i) && Pow2(7) == 128
  {
    Pow32();
    assert Pow2(7) == 128;
  }

  lemma {:induction false} MaskFromPartialByte(bits: nat, i: nat, partial: nat)
    requires i < 4 && 8 * i < bits <= 8 * (i + 1)
    requires partial == Pow2(8 * (i + 1) - bits) && 1 <= partial <= 128
    requires Mask(bits) == 0x1_0000_0000 - partial * ByteWeight(i)
    ensures Mask(bits)
            == FromOctets(CidrMaskByte(bits, 0), CidrMaskByte(bits, 1), CidrMaskByte(bits, 2), CidrMaskByte(bits, 3))
  {
    hide Mask, FromOctets, Octet, Pow2, CidrMaskByte;
    PartialByte(bits, i, 0);
    PartialByte(bits, i, 1);
    PartialByte(bits, i, 2);
    PartialByte(bits, i, 3);
    OctetsValue(CidrMaskByte(bits, 0), CidrMaskByte(bits, 1), CidrMaskByte(bits, 2), CidrMaskByte(bits, 3));
  }

  lemma {:induction false} PartialByte(bits: nat, i: nat, j: nat)
    requires i < 4 && j < 4 && 8 * i < bits <= 8 * (i + 1) && Pow2(8 * (i + 1) - bits) <= 128
    ensures CidrMaskByte(bits, j) == if j < i then 255 else if j > i then 0 else 256 - Pow2(8 * (i + 1) - bits)
  {
    assert Pow2(0) == 1;
    hide Pow2;
  }

  function ByteWeight(i: nat): nat {
    if i == 0 then 0x100_0000 else if i == 1 then 0x1_0000 else if i == 2 then 0x100 else 1
  }

  lemma {:induction false} OctetsValue(o0: nat, o1: nat, o2: nat, o3: nat)
    requires o0 < 256 && o1 < 256 && o2 < 256 && o3 < 256
    ensures FromOctets(o0, o1, o2, o3) == o0 * 0x100_0000 + o1 * 0x1_0000 + o2 * 0x100 + o3
  {
    hide Octet;
  }

  /** The two mask printers agree on every prefix, and print the mask that membership ANDs with. */
  lemma {:induction false} MaskPrintersAgree(p: Prefix)
    ensures MaskStringFromPrefix(p) == PrefixBitsToNetmask(p.bits) == Dotted(Mask(p.bits))
  {
    var bits := p.bits;
    DottedFromOctets(CidrMaskByte(bits, 0), CidrMaskByte(bits, 1), CidrMaskByte(bits, 2), CidrMaskByte(bits, 3));
    if bits == 0 {
      ZeroMask();
    } else {
      MaskBytes(bits, (bits - 1) / 8);
    }
  }

  lemma {:induction false} ZeroMask()
    ensures Mask(0) == 0
  {
    MaskValue(0);
    Pow32();
  }
}
