/**
 What a shell's reading uses up: quote characters, and so what can come out of
 a text that is read back as it was.
 */
module ShellQuotes {
  import opened Outcomes
  import opened Text
  import opened Base64
  import opened EnvFile
  import opened Shell

  function Quotes(t: string): nat {
    if t == "" then 0 else (if IsQuote(t[0]) then 1 else 0) + Quotes(t[1..])
  }

  function QuotesIn(ps: seq<Piece>): nat {
    if ps == [] then 0
    else (if (ps[0].Bare? || ps[0].Quoted?) && IsQuote(ps[0].c) then 1 else 0) + QuotesIn(ps[1..])
  }

  lemma {:induction false} QuotesConcat(a: string, b: string)
    ensures Quotes(a + b) == Quotes(a) + Quotes(b)
  {
    if a == "" {
      assert a + b == b;
    } else {
      assert (a + b)[1..] == a[1..] + b;
      QuotesConcat(a[1..], b);
    }
  }

  lemma {:induction false} QuotesInConcat(a: seq<Piece>, b: seq<Piece>)
    ensures QuotesIn(a + b) == QuotesIn(a) + QuotesIn(b)
  {
    if a == [] {
      assert a + b == b;
    } else {
      assert (a + b)[1..] == a[1..] + b;
      QuotesInConcat(a[1..], b);
    }
  }

  lemma {:induction false} CommentQuotes(t: string)
    ensures Quotes(SkipComment(t)) <= Quotes(t)
  {
    if t != "" && t[0] != '\n' {
      CommentQuotes(t[1..]);
    }
  }

  lemma {:induction false} OneMore(p: Piece, ps: seq<Piece>)
    ensures QuotesIn([p] + ps) == (if (p.Bare? || p.Quoted?) && IsQuote(p.c) then 1 else 0) + QuotesIn(ps)
  {
    assert ([p] + ps)[1..] == ps;
  }

  /** Reading never adds quote characters, and outside quotations it loses one if there is any. */
  lemma {:induction false} ReadingUsesQuotes(t: string, atStart: bool, mode: Mode)
    ensures QuotesIn(Read(t, atStart, mode)) <= Quotes(t)
    ensures mode.Plain? && Quotes(t) > 0 ==> QuotesIn(Read(t, atStart, mode)) < Quotes(t)
    decreases |t|
  {
    hide NeedsMore, QuotesIn, SkipComment;
    assert QuotesIn([]) == 0 && QuotesIn([Halt]) == 0 by {
      OneMore(Halt, []);
      assert [Halt] + [] == [Halt];
      EmptyQuotes();
    }
    if t != "" {
      var c, rest := t[0], t[1..];
      ReadingUsesQuotes(rest, false, Plain);
      ReadingUsesQuotes(rest, true, Plain);
      ReadingUsesQuotes(rest, false, Single);
      ReadingUsesQuotes(rest, false, Double);
      OneMore(Bare(c), Read(rest, Breaks(c), Plain));
      OneMore(Quoted(c), Read(rest, false, Single));
      OneMore(Quoted(c), Read(rest, false, Double));
      OneMore(Opening, Read(rest, false, Single));
      OneMore(Opening, Read(rest, false, Double));
      if rest != "" {
        ReadingUsesQuotes(rest[1..], atStart, Plain);
        ReadingUsesQuotes(rest[1..], false, Plain);
        ReadingUsesQuotes(rest[1..], false, Double);
        OneMore(Quoted(rest[0]), Read(rest[1..], false, Plain));
        OneMore(Quoted(rest[0]), Read(rest[1..], false, Double));
      }
      CommentQuotes(rest);
      ReadingUsesQuotes(SkipComment(rest), true, Plain);
    }
  }

  lemma {:induction false} EmptyQuotes()
    ensures QuotesIn([]) == 0
  {
  }

  function PairQuotes(pairs: seq<(string, string)>): nat {
    if pairs == [] then 0 else Quotes(pairs[0].1) + PairQuotes(pairs[1..])
  }

  function WordQuotes(ws: seq<seq<Piece>>): nat {
    if ws == [] then 0 else QuotesIn(ws[0]) + WordQuotes(ws[1..])
  }

  lemma {:induction false} PairQuotesConcat(a: seq<(string, string)>, b: seq<(string, string)>)
    ensures PairQuotes(a + b) == PairQuotes(a) + PairQuotes(b)
  {
    if a == [] {
      assert a + b == b;
    } else {
      assert (a + b)[1..] == a[1..] + b;
      PairQuotesConcat(a[1..], b);
    }
  }

  lemma {:induction false} TextQuotes(w: seq<Piece>)
    ensures Quotes(TextOf(w)) == QuotesIn(w)
  {
    if w != [] {
      TextQuotes(w[1..]);
      QuotesConcat(if w[0].Bare? || w[0].Quoted? then [w[0].c] else "", TextOf(w[1..]));
    }
  }

  lemma {:induction false} WordsQuotes(line: seq<Piece>)
    ensures WordQuotes(Words(line)) <= QuotesIn(line)
    decreases |line|
  {
    if line != [] {
      if EndsWord(line[0]) {
        WordsQuotes(line[1..]);
      } else {
        var n := End(line, EndsWord);
        assert line == line[..n] + line[n..];
        QuotesInConcat(line[..n], line[n..]);
        WordsQuotes(line[n..]);
        assert ([line[..n]] + Words(line[n..]))[1..] == Words(line[n..]);
      }
    }
  }

  function FieldQuotes(fields: seq<string>): nat {
    if fields == [] then 0 else Quotes(fields[0]) + FieldQuotes(fields[1..])
  }

  lemma {:induction false} AssignQuotes(fields: seq<string>)
    ensures PairQuotes(Assign(fields).pairs) <= FieldQuotes(fields)
  {
    if fields != [] {
      AssignQuotes(fields[1..]);
      var cut := Cut(fields[0], '=');
      if cut.Some? {
        QuotesConcat(cut.value.0 + ['='], cut.value.1);
        var rest := Assign(fields[1..]);
        assert ([cut.value] + rest.pairs)[1..] == rest.pairs;
      }
    }
  }

  lemma {:induction false} LiteralFields(fields: seq<string>)
    requires forall i :: 0 <= i < |fields| ==> LiteralText(fields[i])
    ensures FieldQuotes(fields) == 0
  {
    if fields != [] {
      NoQuotesIff(fields[0]);
      LiteralFields(fields[1..]);
    }
  }

  lemma {:induction false} FieldsQuotes(files: Files, w: seq<Piece>)
    requires Tame(files)
    ensures FieldQuotes(Fields(files, w)) <= QuotesIn(w)
  {
    var fs := Fields(files, w);
    if HasPattern(w) && w in files && files[w] != [] {
      LiteralFields(fs);
    } else {
      TextQuotes(w);
      assert fs[1..] == [];
    }
  }

  lemma {:induction false} ExportQuotes(files: Files, args: seq<seq<Piece>>)
    requires Tame(files)
    ensures PairQuotes(Export(files, args).pairs) <= WordQuotes(args)
  {
    hide Tame, Fields, HasTilde, Assign;
    if args != [] {
      ExportQuotes(files, args[1..]);
      FieldsQuotes(files, args[0]);
      var r := Assign(Fields(files, args[0]));
      AssignQuotes(Fields(files, args[0]));
      PairQuotesConcat(r.pairs, Export(files, args[1..]).pairs);
    }
  }

  lemma {:induction false} ExecuteQuotes(files: Files, line: seq<Piece>)
    requires Tame(files)
    ensures PairQuotes(Execute(files, Words(line)).pairs) <= QuotesIn(line)
  {
    hide Words, Export, QuotesIn, Tame;
    WordsQuotes(line);
    if Words(line) != [] {
      ExportQuotes(files, Words(line)[1..]);
    }
  }

  /** The values set hold no more quote characters than the pieces they are made of. */
  lemma {:induction false} SourceQuotes(files: Files, ps: seq<Piece>)
    requires Tame(files)
    ensures PairQuotes(Source(files, ps).pairs) <= QuotesIn(ps)
    decreases |ps|
  {
    if ps != [] {
      hide Words, Execute, QuotesIn, Tame;
      var n := End(ps, EndsLine);
      ExecuteQuotes(files, ps[..n]);
      assert ps == ps[..n] + ps[n..];
      QuotesInConcat(ps[..n], ps[n..]);
      if n == |ps| {
        assert ps[..n] == ps;
      } else {
        assert ps[n..] == [ps[n]] + ps[n + 1..];
        QuotesInConcat([ps[n]], ps[n + 1..]);
        SourceQuotes(files, ps[n + 1..]);
        PairQuotesConcat(Execute(files, Words(ps[..n])).pairs, Source(files, ps[n + 1..]).pairs);
      }
    }
  }

  lemma {:induction false} AssignNames(fields: seq<string>)
    ensures forall pair :: pair in Assign(fields).pairs ==> IsName(pair.0)
  {
    if fields != [] {
      AssignNames(fields[1..]);
    }
  }

  lemma {:induction false} ExportNames(files: Files, args: seq<seq<Piece>>)
    ensures forall pair :: pair in Export(files, args).pairs ==> IsName(pair.0)
  {
    hide HasTilde, Fields, IsName;
    if args != [] {
      AssignNames(Fields(files, args[0]));
      ExportNames(files, args[1..]);
    }
  }

  lemma {:induction false} SourceNames(files: Files, ps: seq<Piece>)
    ensures forall pair :: pair in Source(files, ps).pairs ==> IsName(pair.0)
    decreases |ps|
  {
    if ps != [] {
      hide Words, Export, IsName;
      var n := End(ps, EndsLine);
      assert n == |ps| ==> ps[..n] == ps;
      if Words(ps[..n]) != [] {
        ExportNames(files, Words(ps[..n])[1..]);
      }
      if n < |ps| {
        SourceNames(files, ps[n + 1..]);
      }
    }
  }

  /** Each variable's value is that of one of its settings. */
  lemma {:induction false} MapOfPairs(pairs: seq<(string, string)>, k: string)
    requires k in MapOf(pairs)
    ensures (k, MapOf(pairs)[k]) in pairs
  {
    var init, last := pairs[..|pairs| - 1], pairs[|pairs| - 1];
    if last.0 == k {
      assert last == (k, MapOf(pairs)[k]);
    } else {
      MapOfPairs(init, k);
    }
  }

  function ValueQuotes(m: map<string, string>, keys: seq<string>): nat
    requires forall k :: k in keys ==> k in m
  {
    if keys == [] then 0 else Quotes(m[keys[0]]) + ValueQuotes(m, keys[1..])
  }

  predicate Apart(keys: seq<string>) {
    forall i, j :: 0 <= i < j < |keys| ==> keys[i] != keys[j]
  }

  lemma {:induction false} ValueQuotesConcat(m: map<string, string>, a: seq<string>, b: seq<string>)
    requires forall k :: k in a + b ==> k in m
    ensures forall k :: k in a || k in b ==> k in m
    ensures ValueQuotes(m, a + b) == ValueQuotes(m, a) + ValueQuotes(m, b)
  {
    forall k | k in a || k in b ensures k in m {
      assert k in a + b;
    }
    if a == [] {
      assert a + b == b;
    } else {
      assert (a + b)[1..] == a[1..] + b;
      ValueQuotesConcat(m, a[1..], b);
    }
  }

  lemma {:induction false} ValueQuotesSame(m: map<string, string>, n: map<string, string>, keys: seq<string>)
    requires forall k :: k in keys ==> k in m && k in n && m[k] == n[k]
    ensures ValueQuotes(m, keys) == ValueQuotes(n, keys)
  {
    if keys != [] {
      ValueQuotesSame(m, n, keys[1..]);
    }
  }

  lemma {:induction false} WithoutKey(m: map<string, string>, keys: seq<string>, i: nat)
    requires i < |keys| && forall k :: k in keys ==> k in m
    ensures forall k :: k in keys[..i] + keys[i + 1..] ==> k in m
    ensures ValueQuotes(m, keys) == Quotes(m[keys[i]]) + ValueQuotes(m, keys[..i] + keys[i + 1..])
  {
    hide Quotes;
    var before, at, after := keys[..i], [keys[i]], keys[i + 1..];
    assert keys == before + (at + after);
    ValueQuotesConcat(m, before, at + after);
    ValueQuotesConcat(m, at, after);
    forall k | k in before + after ensures k in m {
      assert k in before || k in at + after;
    }
    ValueQuotesConcat(m, before, after);
    assert at[1..] == [] && ValueQuotes(m, []) == 0;
  }

  /** The keys other than the last one set keep their values. */
  lemma {:induction false} Others(pairs: seq<(string, string)>, keys: seq<string>, k: string)
    requires pairs != [] && k in keys && k != pairs[|pairs| - 1].0 && k in MapOf(pairs)
    ensures k in MapOf(pairs[..|pairs| - 1]) && MapOf(pairs[..|pairs| - 1])[k] == MapOf(pairs)[k]
  {
  }

  /** The final values hold no more quote characters than all settings together. */
  lemma {:induction false} FinalQuotes(pairs: seq<(string, string)>, keys: seq<string>)
    requires Apart(keys) && forall k :: k in keys ==> k in MapOf(pairs)
    ensures ValueQuotes(MapOf(pairs), keys) <= PairQuotes(pairs)
    decreases |pairs|
  {
    if pairs == [] {
      if keys != [] {
        assert keys[0] in keys;
      }
    } else {
      hide Quotes, ValueQuotes;
      var init, last := pairs[..|pairs| - 1], pairs[|pairs| - 1];
      assert pairs == init + [last];
      PairQuotesConcat(init, [last]);
      assert PairQuotes([last]) == Quotes(last.1) by { assert [last][1..] == []; }
      if last.0 in keys {
        var i :| 0 <= i < |keys| && keys[i] == last.0;
        var others := keys[..i] + keys[i + 1..];
        WithoutKey(MapOf(pairs), keys, i);
        assert forall j :: 0 <= j < |others| ==> others[j] == if j < i then keys[j] else keys[j + 1];
        OthersQuotes(pairs, others);
        FinalQuotes(init, others);
      } else {
        OthersQuotes(pairs, keys);
        FinalQuotes(init, keys);
      }
    }
  }

  lemma {:induction false} OthersQuotes(pairs: seq<(string, string)>, others: seq<string>)
    requires pairs != [] && forall k :: k in others ==> k in MapOf(pairs) && k != pairs[|pairs| - 1].0
    ensures forall k :: k in others ==> k in MapOf(pairs[..|pairs| - 1])
    ensures ValueQuotes(MapOf(pairs), others) == ValueQuotes(MapOf(pairs[..|pairs| - 1]), others)
  {
    forall k | k in others
      ensures k in MapOf(pairs[..|pairs| - 1]) && MapOf(pairs[..|pairs| - 1])[k] == MapOf(pairs)[k]
    {
      Others(pairs, others, k);
    }
    hide MapOf;
    ValueQuotesSame(MapOf(pairs), MapOf(pairs[..|pairs| - 1]), others);
  }

  lemma {:induction false} NoQuotesIff(t: string)
    ensures Quotes(t) == 0 <==> forall c :: c in t ==> !IsQuote(c)
  {
    if t != "" {
      NoQuotesIff(t[1..]);
      assert t == [t[0]] + t[1..];
    }
  }

  lemma {:induction false} LineQuotes(k: Bytes, v: Bytes)
    requires IsName(k)
    ensures Quotes(Line(k, v)) == Quotes(v)
  {
    hide Quotes;
    NoQuotesIff("export " + k + "=");
    QuotesConcat("export " + k + "=", v);
  }

  lemma {:induction false} JoinedQuotes(env: Env, keys: seq<Bytes>)
    requires forall k :: k in keys ==> k in env && IsName(k)
    ensures Quotes(Join(Lines(env, keys), "\n")) == ValueQuotes(env, keys)
  {
    hide Line, IsName;
    if keys != [] {
      JoinedQuotes(env, keys[1..]);
      LineQuotes(keys[0], env[keys[0]]);
      var first, rest := Line(keys[0], env[keys[0]]), Lines(env, keys[1..]);
      assert Lines(env, keys)[1..] == rest;
      if rest != [] {
        QuotesConcat(first + "\n", Join(rest, "\n"));
        QuotesConcat(first, "\n");
        NoQuotesIff("\n");
      } else {
        assert keys[1..] == [];
      }
    }
  }

  // ----- Without quoting, what is set is literal -----

  predicate Naked(p: Piece) {
    p.Halt? || (p.Bare? && !IsQuote(p.c) && !NeedsMore(p.c))
  }

  lemma {:induction false} ReadNaked(t: string, atStart: bool)
    requires forall c :: c in t ==> !IsQuote(c)
    ensures forall p :: p in Read(t, atStart, Plain) ==> Naked(p)
    decreases |t|
  {
    hide NeedsMore;
    if t != "" {
      assert t[0] in t;
      ReadNaked(t[1..], Breaks(t[0]));
      SkippedCharacters(t[1..]);
      ReadNaked(SkipComment(t[1..]), true);
    }
  }

  lemma {:induction false} SkippedCharacters(t: string)
    ensures forall c :: c in SkipComment(t) ==> c in t
  {
    if t != "" && t[0] != '\n' {
      SkippedCharacters(t[1..]);
    }
  }

  predicate LiteralWord(w: seq<Piece>) {
    forall i :: 0 <= i < |w| ==> w[i].Bare? && IsLiteral(w[i].c)
  }

  lemma {:induction false} WordsLiteral(line: seq<Piece>)
    requires forall p :: p in line ==> Naked(p) && p != Halt && !EndsLine(p)
    ensures forall w :: w in Words(line) ==> LiteralWord(w)
    decreases |line|
  {
    hide NeedsMore, IsQuote;
    if line != [] {
      if EndsWord(line[0]) {
        WordsLiteral(line[1..]);
      } else {
        var n := End(line, EndsWord);
        WordsLiteral(line[n..]);
        forall i | 0 <= i < n ensures line[i].Bare? && IsLiteral(line[i].c) {
          assert line[i] in line;
        }
      }
    }
  }

  lemma {:induction false} BareText(w: seq<Piece>)
    requires forall i :: 0 <= i < |w| ==> w[i].Bare?
    ensures |TextOf(w)| == |w| && forall i :: 0 <= i < |w| ==> TextOf(w)[i] == w[i].c
  {
    if w != [] {
      BareText(w[1..]);
    }
  }

  lemma {:induction false} AssignLiteral(fields: seq<string>)
    requires forall i :: 0 <= i < |fields| ==> LiteralText(fields[i])
    ensures forall pair :: pair in Assign(fields).pairs ==> LiteralText(pair.1)
  {
    hide IsLiteral;
    if fields != [] {
      AssignLiteral(fields[1..]);
      var cut := Cut(fields[0], '=');
      if cut.Some? {
        assert LiteralText(fields[0]);
        forall c | c in cut.value.1 ensures c in fields[0] {}
      }
    }
  }

  lemma {:induction false} ExportLiteral(files: Files, args: seq<seq<Piece>>)
    requires Tame(files) && forall w :: w in args ==> LiteralWord(w)
    ensures forall pair :: pair in Export(files, args).pairs ==> LiteralText(pair.1)
  {
    hide HasTilde, LiteralText, LiteralStart, HasPattern, IsLiteral;
    if args != [] {
      assert args[0] in args;
      ExportLiteral(files, args[1..]);
      WordLiteral(args[0]);
      AssignLiteral(Fields(files, args[0]));
    }
  }

  lemma {:induction false} WordLiteral(w: seq<Piece>)
    requires LiteralWord(w)
    ensures LiteralText(TextOf(w))
  {
    BareText(w);
  }

  lemma {:induction false} SourceLiteral(files: Files, ps: seq<Piece>)
    requires Tame(files) && forall p :: p in ps ==> Naked(p)
    ensures forall pair :: pair in Source(files, ps).pairs ==> LiteralText(pair.1)
    decreases |ps|
  {
    if ps != [] {
      hide Naked, LiteralWord, LiteralText, Words, Export, Tame;
      var n := End(ps, EndsLine);
      assert n == |ps| ==> ps[..n] == ps;
      if Halt !in ps[..n] {
        WordsLiteral(ps[..n]);
        var words := Words(ps[..n]);
        if words != [] {
          ExportLiteral(files, words[1..]);
        }
      }
      if n < |ps| {
        SourceLiteral(files, ps[n + 1..]);
      }
    }
  }
}
