/**
 The base64 encoding of section 4 of RFC 4648, as Go's base64.StdEncoding
 prints it, and its strict inverse.
 */
module Base64 {
  import opened Outcomes

  /** A Go string: one character for each byte. */
  type Bytes = s: string | forall c :: c in s ==> c as int < 256

  /** Table 1 of RFC 4648. */
  function Digit(n: nat): char
    requires n < 64
  {
    if n < 26 then 'A' + n as char
    else if n < 52 then 'a' + (n - 26) as char
    else if n < 62 then '0' + (n - 52) as char
    else if n == 62 then '+' else '/'
  }

  function Value(c: char): (v: Option<nat>)
    ensures v.Some? ==> v.value < 64
  {
    if 'A' <= c <= 'Z' then Some(c as int - 'A' as int)
    else if 'a' <= c <= 'z' then Some(c as int - 'a' as int + 26)
    else if '0' <= c <= '9' then Some(c as int - '0' as int + 52)
    else if c == '+' then Some(62)
    else if c == '/' then Some(63)
    else None
  }

  const PAD := '='

  function Encode(s: Bytes): string {
    if |s| == 0 then ""
    else
      var a := s[0] as int;
      assert s[0] in s;
      if |s| == 1 then [Digit(a / 4), Digit(a % 4 * 16), PAD, PAD]
      else
        var b := s[1] as int;
        assert s[1] in s;
        if |s| == 2 then [Digit(a / 4), Digit(a % 4 * 16 + b / 16), Digit(b % 16 * 4), PAD]
        else
          var c := s[2] as int;
          assert s[2] in s;
          [Digit(a / 4), Digit(a % 4 * 16 + b / 16), Digit(b % 16 * 4 + c / 64), Digit(c % 64)] + Encode(s[3..])
  }

  /** The last group of four: one or two "=" stand for missing bytes, whose bits must be zero. */
  function DecodeLast(w: nat, x: nat, third: char, fourth: char): Option<Bytes>
    requires w < 64 && x < 64
  {
    var first := (w * 4 + x / 16) as char;
    if fourth != PAD then None
    else if third == PAD then
      if x % 16 == 0 then Some([first]) else None
    else
      match Value(third)
      case None => None
      case Some(y) =>
        if y % 4 == 0 then Some([first, (x % 16 * 16 + y / 4) as char]) else None
  }

  /** Four digits as three bytes. */
  function Triple(w: nat, x: nat, y: nat, z: nat): (r: Bytes)
    requires w < 64 && x < 64 && y < 64 && z < 64
    ensures |r| == 3
  {
    [(w * 4 + x / 16) as char, (x % 16 * 16 + y / 4) as char, (y % 4 * 64 + z) as char]
  }

  function Decode(t: string): Option<Bytes> {
    if t == "" then Some("")
    else if |t| < 4 || Value(t[0]).None? || Value(t[1]).None? then None
    else
      var w, x := Value(t[0]).value, Value(t[1]).value;
      if |t| == 4 && t[3] == PAD then DecodeLast(w, x, t[2], t[3])
      else if Value(t[2]).None? || Value(t[3]).None? then None
      else
        var y, z := Value(t[2]).value, Value(t[3]).value;
        match Decode(t[4..])
        case None => None
        case Some(rest) => Some(Triple(w, x, y, z) + rest)
  }

  const UPPER := "ABCDEFGHIJKLMNOPQRSTUVWXYZ"
  const LOWER := "abcdefghijklmnopqrstuvwxyz"
  const REST := "0123456789+/"

  /** The alphabet, and with it where each digit is read from. */
  lemma {:induction false} DigitsAreTable(n: nat)
    requires n < 64
    ensures |UPPER + LOWER + REST| == 64 && Digit(n) == (UPPER + LOWER + REST)[n]
  {
    assert |UPPER| == 26 && |LOWER| == 26 && |REST| == 12;
    if n < 26 {
    } else if n < 52 {
      assert Digit(n) == LOWER[n - 26];
    } else {
      assert Digit(n) == REST[n - 52];
    }
  }

  /** The examples of section 10 of RFC 4648. */
  lemma {:induction false} Examples()
    ensures Encode("") == "" && Encode("f") == "Zg==" && Encode("fo") == "Zm8=" && Encode("foo") == "Zm9v"
    ensures Encode("foob") == "Zm9vYg==" && Encode("fooba") == "Zm9vYmE=" && Encode("foobar") == "Zm9vYmFy"
  {
    assert "foob"[3..] == "b" && "fooba"[3..] == "ba" && "foobar"[3..] == "bar" && "foo"[3..] == "";
  }

  lemma {:induction false} ValueDigit(n: nat)
    requires n < 64
    ensures Value(Digit(n)) == Some(n) && Digit(n) != PAD
  {
  }

  lemma {:induction false} DigitValue(c: char)
    requires Value(c).Some?
    ensures Digit(Value(c).value) == c && c != PAD
  {
  }

  /** Three bytes cut into four digits and put together again. */
  lemma {:induction false} Regroup(a: nat, b: nat, c: nat)
    requires a < 256 && b < 256 && c < 256
    ensures var w, x, y, z := a / 4, a % 4 * 16 + b / 16, b % 16 * 4 + c / 64, c % 64;
            && w < 64 && x < 64 && y < 64 && z < 64
            && w * 4 + x / 16 == a && x % 16 * 16 + y / 4 == b && y % 4 * 64 + z == c
  {
  }

  lemma {:induction false} Ungroup(w: nat, x: nat, y: nat, z: nat)
    requires w < 64 && x < 64 && y < 64 && z < 64
    ensures var a, b, c := w * 4 + x / 16, x % 16 * 16 + y / 4, y % 4 * 64 + z;
            && a < 256 && b < 256 && c < 256
            && a / 4 == w && a % 4 * 16 + b / 16 == x && b % 16 * 4 + c / 64 == y && c % 64 == z
  {
  }

  lemma {:induction false} DecodeEncodeOne(a: char)
    requires a as int < 256
    ensures Decode(Encode([a])) == Some([a])
  {
    hide Digit, Value;
    assert a in [a];
    Regroup(a as int, 0, 0);
    ValueDigit(a as int / 4);
    ValueDigit(a as int % 4 * 16);
  }

  lemma {:induction false} DecodeEncodeTwo(a: char, b: char)
    requires a as int < 256 && b as int < 256
    ensures Decode(Encode([a, b])) == Some([a, b])
  {
    hide Digit, Value;
    assert a in [a, b] && b in [a, b];
    Regroup(a as int, b as int, 0);
    ValueDigit(a as int / 4);
    ValueDigit(a as int % 4 * 16 + b as int / 16);
    ValueDigit(b as int % 16 * 4);
  }

  lemma {:induction false} DecodeEncodeShort(s: Bytes)
    requires |s| < 3
    ensures Decode(Encode(s)) == Some(s)
  {
    if |s| == 0 {
      assert s == "" && Encode("") == "";
    } else if |s| == 1 {
      hide *;
      assert s[0] in s && s == [s[0]];
      DecodeEncodeOne(s[0]);
    } else {
      hide *;
      assert s[0] in s && s[1] in s && s == [s[0], s[1]];
      DecodeEncodeTwo(s[0], s[1]);
    }
  }

  /** A full group of four in front of an encoding. */
  lemma {:induction false} DecodeGroup(w: nat, x: nat, y: nat, z: nat, t: string, rest: Bytes)
    requires w < 64 && x < 64 && y < 64 && z < 64
    requires Decode(t) == Some(rest)
    ensures Decode([Digit(w), Digit(x), Digit(y), Digit(z)] + t) == Some(Triple(w, x, y, z) + rest)
  {
    hide Digit, Value, Triple, DecodeLast;
    var whole := [Digit(w), Digit(x), Digit(y), Digit(z)] + t;
    assert whole[4..] == t;
    ValueDigit(w);
    ValueDigit(x);
    ValueDigit(y);
    ValueDigit(z);
  }

  function Quad(a: nat, b: nat, c: nat): (q: string)
    requires a < 256 && b < 256 && c < 256
    ensures |q| == 4
  {
    Regroup(a, b, c);
    [Digit(a / 4), Digit(a % 4 * 16 + b / 16), Digit(b % 16 * 4 + c / 64), Digit(c % 64)]
  }

  lemma {:induction false} TripleOfQuad(a: nat, b: nat, c: nat)
    requires a < 256 && b < 256 && c < 256
    ensures a % 4 * 16 + b / 16 < 64 && b % 16 * 4 + c / 64 < 64
    ensures Triple(a / 4, a % 4 * 16 + b / 16, b % 16 * 4 + c / 64, c % 64) == [a as char, b as char, c as char]
  {
    Regroup(a, b, c);
  }

  lemma {:induction false} QuadOfTriple(w: nat, x: nat, y: nat, z: nat)
    requires w < 64 && x < 64 && y < 64 && z < 64
    ensures var r := Triple(w, x, y, z);
            && r[0] in r && r[1] in r && r[2] in r
            && Quad(r[0] as int, r[1] as int, r[2] as int) == [Digit(w), Digit(x), Digit(y), Digit(z)]
  {
    hide Digit;
    var a, b, c := w * 4 + x / 16, x % 16 * 16 + y / 4, y % 4 * 64 + z;
    Ungroup(w, x, y, z);
    assert Quad(a, b, c) == [Digit(w), Digit(x), Digit(y), Digit(z)];
    var r := Triple(w, x, y, z);
    assert r[0] in r && r[1] in r && r[2] in r;
    assert r == [a as char, b as char, c as char] by {
      hide Quad;
    }
    hide Quad, Triple;
    assert r[0] as int == a && r[1] as int == b && r[2] as int == c;
  }

  lemma {:induction false} DecodeQuad(a: nat, b: nat, c: nat, t: string, rest: Bytes)
    requires a < 256 && b < 256 && c < 256
    requires Decode(t) == Some(rest)
    ensures Decode(Quad(a, b, c) + t) == Some([a as char, b as char, c as char] + rest)
  {
    hide Digit, Value, Decode, Triple;
    TripleOfQuad(a, b, c);
    DecodeGroup(a / 4, a % 4 * 16 + b / 16, b % 16 * 4 + c / 64, c % 64, t, rest);
  }

  lemma {:induction false} EncodeQuad(s: Bytes)
    requires |s| >= 3
    ensures s[0] in s && s[1] in s && s[2] in s
    ensures Encode(s) == Quad(s[0] as int, s[1] as int, s[2] as int) + Encode(s[3..])
  {
    hide Digit;
    assert s[0] in s && s[1] in s && s[2] in s;
  }

  /** Decoding undoes encoding, for every byte string. */
  lemma {:induction false} DecodeEncode(s: Bytes)
    ensures Decode(Encode(s)) == Some(s)
  {
    hide *;
    if |s| < 3 {
      DecodeEncodeShort(s);
    } else {
      DecodeEncode(s[3..]);
      EncodeQuad(s);
      DecodeQuad(s[0] as int, s[1] as int, s[2] as int, Encode(s[3..]), s[3..]);
      assert s == [s[0], s[1], s[2]] + s[3..];
    }
  }

  lemma {:induction false} EncodeDecodeLast(t: string)
    requires |t| == 4 && t[3] == PAD
    requires Decode(t).Some?
    ensures Encode(Decode(t).value) == t
  {
    hide Digit, Value;
    DigitValue(t[0]);
    DigitValue(t[1]);
    var w, x := Value(t[0]).value, Value(t[1]).value;
    if t[2] == PAD {
      Ungroup(w, x, 0, 0);
    } else {
      DigitValue(t[2]);
      Ungroup(w, x, Value(t[2]).value, 0);
    }
    assert t == [t[0], t[1], t[2], t[3]];
  }

  lemma {:induction false} DecodedQuad(t: string)
    requires Decode(t).Some? && t != "" && !(|t| == 4 && t[3] == PAD)
    ensures Decode(t[4..]).Some?
    ensures var s, rest := Decode(t).value, Decode(t[4..]).value;
            && |s| >= 3 && s[3..] == rest && s[0] in s && s[1] in s && s[2] in s
            && t == Quad(s[0] as int, s[1] as int, s[2] as int) + t[4..]
  {
    hide Digit, Value, DecodeLast, Triple, Quad;
    DigitValue(t[0]);
    DigitValue(t[1]);
    DigitValue(t[2]);
    DigitValue(t[3]);
    QuadOfTriple(Value(t[0]).value, Value(t[1]).value, Value(t[2]).value, Value(t[3]).value);
    assert t == [t[0], t[1], t[2], t[3]] + t[4..];
  }

  /** Encoding undoes decoding: each accepted text is the one encoding of its bytes. */
  lemma {:induction false} EncodeDecode(t: string)
    requires Decode(t).Some?
    ensures Encode(Decode(t).value) == t
  {
    if t == "" {
    } else if |t| == 4 && t[3] == PAD {
      EncodeDecodeLast(t);
    } else {
      hide *;
      DecodedQuad(t);
      EncodeQuad(Decode(t).value);
      EncodeDecode(t[4..]);
    }
  }
}
