/** Outcome types used by every module. */
module Outcomes {
  datatype Option<+T> = None | Some(value: T)
  datatype Result<+T, +E> = Ok(value: T) | Err(error: E)
}

/**
 The string operations the driver builds on: splitting, joining, decimal
 numerals, prefixes and trimming.  A character stands for a Unicode code point;
 only in the environment file and its encoding does it stand for one byte.
 */
module Text {
  import opened Outcomes

  /** Go's strings.Split for a one-character separator. */
  function Split(s: string, sep: char): (parts: seq<string>)
    ensures |parts| >= 1
    ensures forall p :: p in parts ==> sep !in p
    ensures sep !in s ==> parts == [s]
  {
    if s == "" then [""]
    else
      assert s == [s[0]] + s[1..];
      var rest := Split(s[1..], sep);
      if s[0] == sep then [""] + rest else [[s[0]] + rest[0]] + rest[1..]
  }

  /** Go's strings.Join. */
  function Join(parts: seq<string>, sep: string): string {
    if |parts| == 0 then ""
    else if |parts| == 1 then parts[0]
    else parts[0] + sep + Join(parts[1..], sep)
  }

  lemma {:induction false} JoinSplit(s: string, sep: char)
    ensures Join(Split(s, sep), [sep]) == s
  {
    if s != "" {
      JoinSplit(s[1..], sep);
      var rest := Split(s[1..], sep);
      if s[0] == sep {
        assert ([""] + rest)[1..] == rest;
      } else {
        var parts := [[s[0]] + rest[0]] + rest[1..];
        assert parts[1..] == rest[1..];
        assert Join(parts, [sep]) == [s[0]] + Join(rest, [sep]);
      }
    }
  }

  lemma {:induction false} SplitPrefix(p: string, s: string, sep: char)
    requires sep !in p
    ensures Split(p + [sep] + s, sep) == [p] + Split(s, sep)
  {
    var t := p + [sep] + s;
    if p == "" {
      assert t[0] == sep && t[1..] == s;
    } else {
      var rest := Split(t[1..], sep);
      assert t[1..] == p[1..] + [sep] + s;
      assert p[0] in p && t[0] == p[0];
      forall c | c in p[1..] ensures c in p {}
      SplitPrefix(p[1..], s, sep);
      assert rest[0] == p[1..] && rest[1..] == Split(s, sep);
      assert [p[0]] + p[1..] == p;
    }
  }

  lemma {:induction false} SplitJoin(parts: seq<string>, sep: char)
    requires |parts| >= 1
    requires forall p :: p in parts ==> sep !in p
    ensures Split(Join(parts, [sep]), sep) == parts
  {
    if |parts| > 1 {
      SplitJoin(parts[1..], sep);
      SplitPrefix(parts[0], Join(parts[1..], [sep]), sep);
    }
  }

  predicate HasPrefix(s: string, p: string) {
    p <= s
  }

  /** Go's strings.Contains. */
  predicate HasSubstring(s: string, sub: string) {
    sub <= s || (s != "" && HasSubstring(s[1..], sub))
  }

  lemma {:induction false} SubstringAt(a: string, sub: string, b: string)
    ensures HasSubstring(a + sub + b, sub)
  {
    if a == "" {
      assert a + sub + b == sub + b;
    } else {
      SubstringAt(a[1..], sub, b);
      assert (a + sub + b)[1..] == a[1..] + sub + b;
    }
  }

  /** Go's unicode.IsSpace. */
  predicate IsSpace(c: char) {
    || c in "\t\n\r "
    || c as int in {0x0B, 0x0C, 0x85, 0xA0, 0x1680, 0x2028, 0x2029, 0x202F, 0x205F, 0x3000}
    || 0x2000 <= c as int <= 0x200A
  }

  function TrimLeft(s: string): string {
    if s != "" && IsSpace(s[0]) then TrimLeft(s[1..]) else s
  }

  function TrimRight(s: string): string {
    if s != "" && IsSpace(s[|s| - 1]) then TrimRight(s[..|s| - 1]) else s
  }

  /** Go's strings.TrimSpace. */
  function TrimSpace(s: string): string {
    TrimRight(TrimLeft(s))
  }

  /** Trimming takes white space off both ends, and all of it. */
  lemma {:induction false} TrimSpaceShape(s: string) returns (before: string, after: string)
    ensures s == before + TrimSpace(s) + after
    ensures forall c :: c in before || c in after ==> IsSpace(c)
    ensures var t := TrimSpace(s); t != "" ==> !IsSpace(t[0]) && !IsSpace(t[|t| - 1])
  {
    hide IsSpace;
    before := TrimLeftShape(s);
    after := TrimRightShape(TrimLeft(s));
  }

  lemma {:induction false} TrimLeftShape(s: string) returns (before: string)
    ensures s == before + TrimLeft(s) && forall c :: c in before ==> IsSpace(c)
    ensures TrimLeft(s) != "" ==> !IsSpace(TrimLeft(s)[0])
  {
    hide IsSpace;
    before := "";
    if s != "" && IsSpace(s[0]) {
      var rest := TrimLeftShape(s[1..]);
      before := [s[0]] + rest;
    }
  }

  lemma {:induction false} TrimRightShape(s: string) returns (after: string)
    ensures s == TrimRight(s) + after && forall c :: c in after ==> IsSpace(c)
    ensures TrimRight(s) != "" ==> !IsSpace(TrimRight(s)[|TrimRight(s)| - 1])
  {
    hide IsSpace;
    after := "";
    if s != "" && IsSpace(s[|s| - 1]) {
      var rest := TrimRightShape(s[..|s| - 1]);
      after := rest + [s[|s| - 1]];
    }
  }

  predicate OccursAt(s: string, sub: string, i: int) {
    0 <= i <= |s| - |sub| && s[i..i + |sub|] == sub
  }

  /** A text contains another exactly when it occurs at some place. */
  lemma {:induction false} SubstringIff(s: string, sub: string)
    ensures HasSubstring(s, sub) <==> exists i :: 0 <= i <= |s| && OccursAt(s, sub, i)
  {
    if sub <= s {
      assert OccursAt(s, sub, 0);
    } else if s != "" {
      SubstringIff(s[1..], sub);
      if HasSubstring(s[1..], sub) {
        var i :| 0 <= i <= |s[1..]| && OccursAt(s[1..], sub, i);
        assert s[i + 1..i + 1 + |sub|] == s[1..][i..i + |sub|];
        assert OccursAt(s, sub, i + 1);
      }
      if i :| 0 <= i <= |s| && OccursAt(s, sub, i) {
        assert i > 0 && s[i..i + |sub|] == s[1..][i - 1..i - 1 + |sub|];
        assert OccursAt(s[1..], sub, i - 1);
      }
    }
  }

  predicate IsDigit(c: char) {
    '0' <= c <= '9'
  }

  /** Go's strconv.Itoa on a natural number. */
  function Itoa(n: nat): (s: string)
    ensures s != ""
    ensures forall c :: c in s ==> IsDigit(c)
  {
    if n < 10 then ['0' + n as char] else Itoa(n / 10) + ['0' + (n % 10) as char]
  }

  function Atoi(s: string): int
  {
    if s == "" then 0 else 10 * Atoi(s[..|s| - 1]) + (s[|s| - 1] as int - '0' as int)
  }

  lemma {:induction false} AtoiItoa(n: nat)
    ensures Atoi(Itoa(n)) == n
  {
    if n >= 10 {
      AtoiItoa(n / 10);
      assert Itoa(n)[..|Itoa(n)| - 1] == Itoa(n / 10);
    }
  }

  lemma {:induction false} ItoaInjective(m: nat, n: nat)
    requires Itoa(m) == Itoa(n)
    ensures m == n
  {
    AtoiItoa(m);
    AtoiItoa(n);
  }

  /** A separator that neither tail contains splits two equal strings at the same place. */
  lemma {:induction false} LastSeparator(a: string, x: string, b: string, y: string, sep: char)
    requires sep !in x && sep !in y
    requires a + [sep] + x == b + [sep] + y
    ensures a == b && x == y
  {
    var s := a + [sep] + x;
    var t := b + [sep] + y;
    assert s == t && s[|a|] == sep && s[|b|] == sep;
    assert s[|a| + 1..] == x && t[|b| + 1..] == y;
    assert |a| == |b|;
    assert a == s[..|a|] && b == t[..|b|];
  }
}
