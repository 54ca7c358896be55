/**
 The MAC address derived from a name.  cloudhypervisor/driver.go and
 chnet/controller.go hold the same loop over a machine int, which wraps.
 */
module Mac {
  import opened Outcomes
  import opened Subnet

  /** Two's complement: the value of the low `width` bits of n, the top bit being the sign. */
  function Wrap(n: int, width: nat): int
    requires width >= 1
  {
    var m := n % Pow2(width);
    if m < Pow2(width - 1) then m else m - Pow2(width)
  }

  function Power(base: nat, e: nat): nat {
    if e == 0 then 1 else base * Power(base, e - 1)
  }

  /** The sum of each character times 31 to the number of characters after it. */
  function Polynomial(name: string): nat {
    if name == "" then 0 else name[0] as int * Power(31, |name| - 1) + Polynomial(name[1..])
  }

  lemma {:induction false} PolynomialSnoc(name: string, c: char)
    ensures Polynomial(name + [c]) == 31 * Polynomial(name) + c as int
  {
    if name == "" {
      assert ([c])[1..] == [];
      assert name + [c] == [c];
      assert Power(31, 0) == 1;
    } else {
      var longer := name + [c];
      assert longer[1..] == name[1..] + [c];
      PolynomialSnoc(name[1..], c);
      Horner(name[0] as int, Power(31, |name| - 1), Polynomial(name[1..]), c as int);
    }
  }

  lemma {:induction false} Horner(a: nat, p: nat, q: nat, c: nat)
    ensures a * (31 * p) + (31 * q + c) == 31 * (a * p + q) + c
  {
  }

  const LOW24 := 0x100_0000

  lemma {:induction false} Pow24()
    ensures Pow2(24) == LOW24
  {
    PowSplit(8, 16);
    PowSplit(8, 8);
  }

  /** Wrapping at 24 bits or more leaves the low 24 bits alone. */
  lemma {:induction false} WrapKeepsLow(n: int, width: nat)
    requires width >= 24
    ensures Wrap(n, width) % LOW24 == n % LOW24
  {
    hide *;
    var k := WrapShape(n, width);
    PowSplit(24, width - 24);
    Pow24();
    Multiple(n, k, Pow2(width - 24));
  }

  lemma {:induction false} WrapShape(n: int, width: nat) returns (k: int)
    requires width >= 1
    ensures Wrap(n, width) == n - k * Pow2(width)
  {
    hide Pow2;
    var p := Pow2(width);
    var q := n / p;
    k := if n % p < Pow2(width - 1) then q else q + 1;
    Division(n, p);
    assert (q + 1) * p == q * p + p;
  }

  lemma {:induction false} Division(n: int, p: nat)
    requires p >= 1
    ensures n % p == n - n / p * p
  {
  }

  lemma {:induction false} Multiple(n: int, q: int, e: nat)
    ensures (n - q * (LOW24 * e)) % LOW24 == n % LOW24
  {
    assert q * (LOW24 * e) == LOW24 * (q * e);
    SameLow(n - q * (LOW24 * e), n, -(q * e));
  }

  /** Two lower-case hexadecimal digits. */
  function Hex(b: nat): (s: string)
    requires b < 256
    ensures |s| == 2
  {
    [HexDigit(b / 16), HexDigit(b % 16)]
  }

  function HexDigit(n: nat): char
    requires n < 16
  {
    if n < 10 then '0' + n as char else 'a' + (n - 10) as char
  }

  /** The address that ends in the low 24 bits of n. */
  function Printed(n: nat): string {
    "52:54:00:" + Hex(n / 0x10000 % 256) + ":" + Hex(n / 0x100 % 256) + ":" + Hex(n % 256)
  }

  /**
   generateMAC and generateDeterministicMAC: whatever the width of the machine
   int, the address is that of the polynomial computed without wrapping.
   */
  method Generate(name: string, width: nat) returns (mac: string)
    requires width >= 24
    ensures mac == Printed(Polynomial(name))
  {
    var hash := 0;
    for i := 0 to |name|
      invariant hash % LOW24 == Polynomial(name[..i]) % LOW24
    {
      assert name[..i + 1] == name[..i] + [name[i]];
      PolynomialSnoc(name[..i], name[i]);
      WrapKeepsLow(hash * 31, width);
      WrapKeepsLow(Wrap(hash * 31, width) + name[i] as int, width);
      HornerLow(hash, Polynomial(name[..i]), name[i] as int, Wrap(hash * 31, width));
      hash := Wrap(Wrap(hash * 31, width) + name[i] as int, width);
    }
    assert name[..|name|] == name;
    SameBytes(hash, Polynomial(name));
    mac := "52:54:00:" + Hex(hash / 0x10000 % 256) + ":" + Hex(hash / 0x100 % 256) + ":" + Hex(hash % 256);
  }

  lemma {:induction false} HornerLow(h: int, p: int, c: int, w: int)
    requires h % LOW24 == p % LOW24 && w % LOW24 == (h * 31) % LOW24
    ensures (w + c) % LOW24 == (31 * p + c) % LOW24
  {
    var j, k := h / LOW24 - p / LOW24, w / LOW24 - h * 31 / LOW24;
    assert h == p + LOW24 * j;
    assert w == h * 31 + LOW24 * k;
    SameLow(w + c, 31 * p + c, k + 31 * j);
  }

  lemma {:induction false} SameLow(a: int, b: int, k: int)
    requires a == b + LOW24 * k
    ensures a % LOW24 == b % LOW24
  {
  }

  /** The three printed bytes are decided by the low 24 bits. */
  lemma {:induction false} SameBytes(h: int, p: int)
    ensures h % LOW24 == p % LOW24 <==>
            && h / 0x10000 % 256 == p / 0x10000 % 256
            && h / 0x100 % 256 == p / 0x100 % 256
            && h % 256 == p % 256
  {
    LowBytes(h);
    LowBytes(p);
  }

  lemma {:induction false} LowBytes(h: int)
    ensures h % LOW24 == h / 0x10000 % 256 * 0x10000 + h / 0x100 % 256 * 0x100 + h % 256
  {
    var c := h / 0x10000;
    TwoBytes(h);
    assert c == 256 * (c / 256) + c % 256;
    var low := c % 256 * 0x10000 + h / 0x100 % 256 * 0x100 + h % 256;
    SameLow(h, low, c / 256);
  }

  lemma {:induction false} TwoBytes(h: int)
    ensures h == h / 0x10000 * 0x10000 + h / 0x100 % 256 * 0x100 + h % 256
  {
    var b := h / 0x100;
    assert h == 0x100 * b + h % 0x100;
    assert b == 0x100 * (b / 0x100) + b % 0x100;
    assert h / 0x10000 == b / 0x100;
  }

  lemma {:induction false} HexInjective(a: nat, b: nat)
    requires a < 256 && b < 256
    requires Hex(a) == Hex(b)
    ensures a == b
  {
    assert Hex(a)[0] == Hex(b)[0] && Hex(a)[1] == Hex(b)[1];
  }

  /** Two names get the same address exactly when their polynomials agree modulo 2^24. */
  lemma {:induction false} SameMacIff(a: string, b: string)
    ensures Printed(Polynomial(a)) == Printed(Polynomial(b)) <==>
            Polynomial(a) % LOW24 == Polynomial(b) % LOW24
  {
    hide Polynomial, Hex;
    var p, q := Polynomial(a), Polynomial(b);
    SameBytes(p, q);
    if Printed(p) == Printed(q) {
      var s, t := Printed(p), Printed(q);
      assert s[9..11] == Hex(p / 0x10000 % 256) && t[9..11] == Hex(q / 0x10000 % 256);
      assert s[12..14] == Hex(p / 0x100 % 256) && t[12..14] == Hex(q / 0x100 % 256);
      assert s[15..17] == Hex(p % 256) && t[15..17] == Hex(q % 256);
      HexInjective(p / 0x10000 % 256, q / 0x10000 % 256);
      HexInjective(p / 0x100 % 256, q / 0x100 % 256);
      HexInjective(p % 256, q % 256);
    }
  }

  /** The number lower-case hexadecimal digits stand for. */
  function HexValue(text: string): Option<nat> {
    if text == "" then Some(0)
    else
      var c := text[|text| - 1];
      match HexValue(text[..|text| - 1])
      case None => None
      case Some(high) =>
        if '0' <= c <= '9' then Some(16 * high + (c as int - '0' as int))
        else if 'a' <= c <= 'f' then Some(16 * high + 10 + (c as int - 'a' as int))
        else None
  }

  /** An address is the local prefix 52:54:00 and the low 24 bits, most significant byte first, in hexadecimal. */
  lemma {:induction false} PrintedReads(n: nat)
    ensures var t := Printed(n);
            && |t| == 17 && t[..9] == "52:54:00:" && t[11] == ':' && t[14] == ':'
            && HexValue(t[9..11]) == Some(n / 0x10000 % 256)
            && HexValue(t[12..14]) == Some(n / 0x100 % 256)
            && HexValue(t[15..17]) == Some(n % 256)
    ensures n % LOW24 == n / 0x10000 % 256 * 0x10000 + n / 0x100 % 256 * 0x100 + n % 256
  {
    HexReads(n / 0x10000 % 256);
    HexReads(n / 0x100 % 256);
    HexReads(n % 256);
    LowBytes(n);
    hide Hex, HexValue;
    var t := Printed(n);
    assert t[9..11] == Hex(n / 0x10000 % 256) && t[12..14] == Hex(n / 0x100 % 256) && t[15..17] == Hex(n % 256);
  }

  lemma {:induction false} HexReads(b: nat)
    requires b < 256
    ensures HexValue(Hex(b)) == Some(b)
  {
    var t := Hex(b);
    assert t[..1] == [t[0]] && t[..1][..0] == "";
    assert HexValue(t[..1]) == Some(b / 16);
  }

  /** The address is not unique: different names can share it. */
  lemma {:induction false} MacsCollide()
    ensures Printed(Polynomial("Aa")) == Printed(Polynomial("BB"))
  {
    PolynomialSnoc("A", 'a');
    PolynomialSnoc("B", 'B');
    PolynomialSnoc("", 'A');
    PolynomialSnoc("", 'B');
    assert "" + ['A'] == "A" && "" + ['B'] == "B";
    assert "A" + ['a'] == "Aa" && "B" + ['B'] == "BB";
  }
}
