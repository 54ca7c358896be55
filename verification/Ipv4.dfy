/**
 IPv4 addresses as the driver's netip.Addr values, and their canonical text:
 the driver keys its allocation table by that text, so reading and writing it
 must be inverse to each other.
 */
module Ipv4 {
  import opened Outcomes
  import opened Text

  type Addr = a: int | 0 <= a < 0x1_0000_0000

  /** Byte i of an address, 0 the most significant: byte(a >> (24 - 8i)). */
  function Octet(a: Addr, i: nat): (o: nat)
    requires i < 4
    ensures o < 256
  {
    match i
    case 0 => a / 256 / 256 / 256
    case 1 => a / 256 / 256 % 256
    case 2 => a / 256 % 256
    case _ => a % 256
  }

  function FromOctets(o0: nat, o1: nat, o2: nat, o3: nat): (a: Addr)
    requires o0 < 256 && o1 < 256 && o2 < 256 && o3 < 256
    ensures Octet(a, 0) == o0 && Octet(a, 1) == o1 && Octet(a, 2) == o2 && Octet(a, 3) == o3
  {
    ((o0 * 256 + o1) * 256 + o2) * 256 + o3
  }

  function DottedOctets(o0: nat, o1: nat, o2: nat, o3: nat): string {
    Join([Itoa(o0), Itoa(o1), Itoa(o2), Itoa(o3)], ".")
  }

  /** netip.Addr.String for an IPv4 address. */
  function Dotted(a: Addr): string {
    DottedOctets(Octet(a, 0), Octet(a, 1), Octet(a, 2), Octet(a, 3))
  }

  lemma {:induction false} DottedFromOctets(o0: nat, o1: nat, o2: nat, o3: nat)
    requires o0 < 256 && o1 < 256 && o2 < 256 && o3 < 256
    ensures Dotted(FromOctets(o0, o1, o2, o3)) == DottedOctets(o0, o1, o2, o3)
  {
  }

  /** An address is printed as the numerals of its four bytes, most significant first, with dots between them. */
  lemma {:induction false} DottedText(a: Addr)
    ensures Dotted(a) == Itoa(a / 0x100_0000) + "." + Itoa(a / 0x1_0000 % 256) + "." + Itoa(a / 0x100 % 256) + "."
                         + Itoa(a % 256)
  {
    hide Itoa;
    assert a / 256 / 256 / 256 == a / 0x100_0000 && a / 256 / 256 == a / 0x1_0000;
    JoinFour(Itoa(Octet(a, 0)), Itoa(Octet(a, 1)), Itoa(Octet(a, 2)), Itoa(Octet(a, 3)));
  }

  lemma {:induction false} JoinFour(p: string, q: string, r: string, s: string)
    ensures Join([p, q, r, s], ".") == p + "." + q + "." + r + "." + s
  {
    assert [p, q, r, s][1..] == [q, r, s] && [q, r, s][1..] == [r, s] && [r, s][1..] == [s];
    assert Join([r, s], ".") == r + "." + s;
    assert Join([q, r, s], ".") == q + "." + (r + "." + s);
    assert Join([p, q, r, s], ".") == p + "." + (q + "." + (r + "." + s));
  }

  /** The number up to n that s is the canonical numeral of: no sign, no leading zero. */
  function ReadNumeral(s: string, n: nat): (r: Option<nat>)
    ensures r.Some? ==> r.value <= n && Itoa(r.value) == s
    ensures r.None? ==> forall m: nat :: m <= n ==> Itoa(m) != s
  {
    if Itoa(n) == s then Some(n) else if n == 0 then None else ReadNumeral(s, n - 1)
  }

  /** netip.ParseAddr on dotted-decimal text: four canonical numerals up to 255. */
  function ParseV4(s: string): Option<Addr> {
    var parts := Split(s, '.');
    if |parts| != 4 then None
    else
      match (ReadNumeral(parts[0], 255), ReadNumeral(parts[1], 255),
             ReadNumeral(parts[2], 255), ReadNumeral(parts[3], 255))
      case (Some(a), Some(b), Some(c), Some(d)) => Some(FromOctets(a, b, c, d))
      case _ => None
  }

  lemma {:induction false} ReadOctet(n: nat)
    requires n < 256
    ensures ReadNumeral(Itoa(n), 255) == Some(n)
  {
    var r := ReadNumeral(Itoa(n), 255);
    if r.Some? {
      ItoaInjective(r.value, n);
    }
  }

  lemma {:induction false} SplitDotted(o0: nat, o1: nat, o2: nat, o3: nat)
    ensures Split(DottedOctets(o0, o1, o2, o3), '.') == [Itoa(o0), Itoa(o1), Itoa(o2), Itoa(o3)]
  {
    var parts := [Itoa(o0), Itoa(o1), Itoa(o2), Itoa(o3)];
    assert forall p :: p in parts ==> '.' !in p;
    SplitJoin(parts, '.');
  }

  /** Every printed address reads back as itself. */
  lemma {:induction false} ParseDotted(a: Addr)
    ensures ParseV4(Dotted(a)) == Some(a)
  {
    hide Itoa, Split, DottedOctets, ReadNumeral;
    SplitDotted(Octet(a, 0), Octet(a, 1), Octet(a, 2), Octet(a, 3));
    ReadOctet(Octet(a, 0));
    ReadOctet(Octet(a, 1));
    ReadOctet(Octet(a, 2));
    ReadOctet(Octet(a, 3));
  }

  /** Every text that reads as an IPv4 address is that address's printed form. */
  lemma {:induction false} DottedParse(s: string)
    requires ParseV4(s).Some?
    ensures Dotted(ParseV4(s).value) == s
  {
    var parts := Split(s, '.');
    var a := ParseV4(s).value;
    var texts := [Itoa(Octet(a, 0)), Itoa(Octet(a, 1)), Itoa(Octet(a, 2)), Itoa(Octet(a, 3))];
    assert parts == texts;
    JoinSplit(s, '.');
  }
}
