/** A file without quoting, read line by line. */
module ShellLines {
  import opened Outcomes
  import opened Text
  import opened Base64
  import opened EnvFile
  import opened Shell
  import opened ShellQuotes

  /** No quoting, nothing that needs more, and no comment unless the text begins with one. */
  predicate Quiet(t: string) {
    && (forall c :: c in t ==> !IsQuote(c) && !NeedsMore(c))
    && (forall i :: 0 <= i < |t| && t[i] == '#' ==> i > 0 && !Breaks(t[i - 1]))
  }

  lemma {:induction false} QuietReads(t: string, atStart: bool)
    requires forall c :: c in t ==> !IsQuote(c) && !NeedsMore(c)
    requires t != "" && t[0] == '#' ==> !atStart
    requires forall i :: 0 < i < |t| && t[i] == '#' ==> !Breaks(t[i - 1])
    ensures Read(t, atStart, Plain) == Bares(t)
  {
    hide NeedsMore, IsQuote, Read;
    if t == "" {
      ReadNothing(atStart);
    } else {
      assert t[0] in t;
      forall i | 0 < i < |t[1..]| && t[1..][i] == '#' ensures !Breaks(t[1..][i - 1]) {
        assert t[i + 1] == '#' && t[1..][i - 1] == t[i];
      }
      ReadBare(t, atStart);
      QuietReads(t[1..], Breaks(t[0]));
      assert Bares(t) == [Bare(t[0])] + Bares(t[1..]);
    }
  }

  lemma {:induction false} ReadNothing(atStart: bool)
    ensures Read("", atStart, Plain) == Bares("")
  {
  }

  lemma {:induction false} ReadBare(t: string, atStart: bool)
    requires t != "" && !IsQuote(t[0]) && !NeedsMore(t[0]) && !(t[0] == '#' && atStart)
    ensures Read(t, atStart, Plain) == [Bare(t[0])] + Read(t[1..], Breaks(t[0]), Plain)
  {
    hide NeedsMore, Breaks, SkipComment;
  }

  lemma {:induction false} QuietConcat(a: string, b: string)
    requires Quiet(a) && Quiet(b)
    ensures Quiet(a + b)
  {
    hide NeedsMore, IsQuote, Breaks;
    forall i | 0 <= i < |a + b| && (a + b)[i] == '#' ensures i > 0 && !Breaks((a + b)[i - 1]) {
      if i >= |a| {
        assert b[i - |a|] == '#';
        assert (a + b)[i - 1] == b[i - |a| - 1];
      } else {
        assert a[i] == '#' && (a + b)[i - 1] == a[i - 1];
      }
    }
  }

  lemma {:induction false} NameCharacters(k: string)
    requires IsName(k)
    ensures forall c :: c in k ==> IsLiteral(c) && c != '#' && c != '=' && c != '~' && c != ':'
  {
  }

  lemma {:induction false} SettingQuiet(k: string, v: string)
    requires IsName(k) && LiteralText(v)
    ensures LiteralText(k + "=" + v) && Quiet(k + "=" + v)
  {
    NameCharacters(k);
    hide IsName, IsQuote, NeedsMore, IsBlank;
    var t, n := k + "=" + v, |k|;
    EqualsLiteral();
    assert forall i :: 0 <= i < |t| ==> t[i] == if i < n then k[i] else if i == n then '=' else v[i - n - 1];
    forall i | 0 <= i < n ensures t[i] != '#' {
      assert k[i] in k;
    }
    forall i | 0 <= i < |t| && t[i] == '#' ensures i > 0 && !Breaks(t[i - 1]) {
      assert i > n;
      assert IsLiteral(t[i - 1]);
    }
  }

  /** A setting has a tilde that is expanded exactly when its value begins with one or has one behind a colon. */
  lemma {:induction false} TildeIff(k: string, v: string)
    requires IsName(k)
    ensures HasTilde(Bares(k + "=" + v)) <==> !TildeSafe(v)
  {
    NameCharacters(k);
    NameNotEmpty(k);
    hide IsName, IsLiteral;
    var t, n := k + "=" + v, |k|;
    var w := Bares(t);
    assert forall i :: 0 <= i < |t| ==> t[i] == if i < n then k[i] else if i == n then '=' else v[i - n - 1];
    forall i | 0 <= i < n ensures t[i] != '~' && t[i] != '=' {
      assert k[i] in k;
    }
    if TildeSafe(v) {
      forall i | 0 <= i < |w| ensures !TildeAt(w, i) {
        if w[i] == Bare('~') {
          assert i > n && v[i - n - 1] == '~';
          assert i > n + 1 ==> t[i - 1] == v[i - n - 2];
          if i > n + 1 {
            BareText(w[..i - 1]);
            assert TextOf(w[..i - 1])[n] == '=';
          }
        }
      }
    } else {
      var i :| 0 <= i < |v| && v[i] == '~' && !(i > 0 && v[i - 1] != ':');
      assert w[n + 1 + i] == Bare('~');
      assert i > 0 ==> t[n + i] == v[i - 1];
      BareText(w[..n]);
      assert TildeAt(w, n + 1 + i);
    }
  }

  lemma {:induction false} EqualsLiteral()
    ensures IsLiteral('=') && !Breaks('=')
  {
  }

  lemma {:induction false} NameNotEmpty(k: string)
    ensures IsName(k) ==> k != ""
  {
  }

  lemma {:induction false} LineQuiet(k: Bytes, v: Bytes)
    requires IsName(k) && LiteralText(v)
    ensures Quiet(Line(k, v)) && '\n' !in Line(k, v)
  {
    hide IsName, Quiet, IsQuote, NeedsMore;
    SettingQuiet(k, v);
    ExportQuiet();
    QuietConcat("export ", k + "=" + v);
    assert "export " + (k + "=" + v) == Line(k, v);
    assert !IsLiteral('\n') && '\n' !in "export ";
  }

  lemma {:induction false} ExportQuiet()
    ensures Quiet("export ")
  {
  }

  lemma {:induction false} JoinQuiet(lines: seq<string>)
    requires forall l :: l in lines ==> Quiet(l)
    ensures Quiet(Join(lines, "\n"))
  {
    if lines != [] {
      assert lines[0] in lines;
      if |lines| > 1 {
        JoinQuiet(lines[1..]);
        assert Quiet("\n");
        hide Quiet;
        QuietConcat(lines[0], "\n");
        QuietConcat(lines[0] + "\n", Join(lines[1..], "\n"));
      }
    }
  }

  lemma {:induction false} EndIs(ps: seq<Piece>, stop: Piece -> bool, n: nat)
    requires n <= |ps| && (forall i :: 0 <= i < n ==> !stop(ps[i])) && (n < |ps| ==> stop(ps[n]))
    ensures End(ps, stop) == n
  {
    if n > 0 {
      EndIs(ps[1..], stop, n - 1);
    }
  }

  lemma {:induction false} OneWord(w: seq<Piece>)
    requires w != [] && forall i :: 0 <= i < |w| ==> !EndsWord(w[i])
    ensures Words(w) == [w]
  {
    EndIs(w, EndsWord, |w|);
    assert w[..|w|] == w && w[|w|..] == [];
  }

  lemma {:induction false} TwoWords(a: seq<Piece>, b: seq<Piece>)
    requires a != [] && b != []
    requires (forall i :: 0 <= i < |a| ==> !EndsWord(a[i])) && (forall i :: 0 <= i < |b| ==> !EndsWord(b[i]))
    ensures Words(a + [Bare(' ')] + b) == [a, b]
  {
    var line := a + [Bare(' ')] + b;
    assert forall i :: 0 <= i < |a| ==> line[i] == a[i];
    assert line[|a|] == Bare(' ');
    EndIs(line, EndsWord, |a|);
    assert line[..|a|] == a && line[|a|..] == [Bare(' ')] + b && ([Bare(' ')] + b)[1..] == b;
    OneWord(b);
  }

  lemma {:induction false} TextOfBares(t: string)
    ensures TextOf(Bares(t)) == t
  {
    BareText(Bares(t));
  }

  /** A line of the file sets its variable to each of its fields in turn, unless a tilde stops it. */
  lemma {:induction false} LineExecutes(files: Files, k: Bytes, v: Bytes)
    requires IsName(k) && LiteralText(v)
    ensures Execute(files, Words(Bares(Line(k, v))))
         == if TildeSafe(v) then Assign(Fields(files, Bares(k + "=" + v))) else Reading([], false)
  {
    var setting := k + "=" + v;
    SettingQuiet(k, v);
    TildeIff(k, v);
    hide TildeSafe, HasTilde, Quiet, TextOf, Words, IsQuote, NeedsMore, IsName, Fields, Assign;
    LineWords(k, v);
    TextOfBares("export");
    var args := [Bares("export"), Bares(setting)][1..];
    assert args == [Bares(setting)] && args[1..] == [];
    assert Export(files, []) == Reading([], true);
    var r := Assign(Fields(files, Bares(setting)));
    assert r.pairs + [] == r.pairs;
  }

  lemma {:induction false} LineWords(k: Bytes, v: Bytes)
    requires LiteralText(k + "=" + v)
    ensures Words(Bares(Line(k, v))) == [Bares("export"), Bares(k + "=" + v)]
  {
    hide Words, IsQuote, NeedsMore;
    var setting := k + "=" + v;
    assert Bares(Line(k, v)) == Bares("export") + [Bare(' ')] + Bares(setting);
    assert forall i :: 0 <= i < |setting| ==> setting[i] in setting;
    TwoWords(Bares("export"), Bares(setting));
  }

  /** Every field of a setting is a setting of the same variable. */
  lemma {:induction false} FieldsSet(files: Files, k: string, v: string, i: nat)
    requires Tame(files) && IsName(k)
    requires i < |Fields(files, Bares(k + "=" + v))|
    ensures k + "=" <= Fields(files, Bares(k + "=" + v))[i]
  {
    hide LiteralText;
    var t, n := k + "=" + v, |k|;
    var w := Bares(t);
    TextOfBares(t);
    if HasPattern(w) && w in files && files[w] != [] {
      NamePatternless(k);
      hide IsName, IsPattern;
      var e := End(w, StartsPattern);
      forall j | 0 <= j <= n ensures !StartsPattern(w[j]) {
        if j < n {
          assert w[j].c == k[j] && k[j] in k;
        } else {
          assert w[j].c == '=';
        }
      }
      assert e > n;
      BareText(w[..e]);
      assert LiteralStart(w)[..n + 1] == k + "=";
      assert LiteralStart(w) <= files[w][i];
    }
  }

  lemma {:induction false} NamePatternless(k: string)
    requires IsName(k)
    ensures (forall c :: c in k ==> !IsPattern(c)) && !IsPattern('=')
  {
  }

  lemma {:induction false} AssignFirst(fields: seq<string>, k: string, v: string)
    requires IsName(k) && fields != [] && fields[0] == k + "=" + v
    ensures Assign(fields) == Reading([(k, v)] + Assign(fields[1..]).pairs, Assign(fields[1..]).complete)
  {
    NameCharacters(k);
    hide IsName, IsLiteral;
    assert fields[0] == k + ['='] + v;
    CutFirst(k, v, '=');
  }

  lemma {:induction false} AssignSets(fields: seq<string>, k: string)
    requires IsName(k) && fields != [] && forall i :: 0 <= i < |fields| ==> k + "=" <= fields[i]
    ensures Assign(fields).complete
    ensures MapOf(Assign(fields).pairs) == map[k := After(fields[|fields| - 1], |k| + 1)]
  {
    hide IsName, Assign, MapOf;
    var v := After(fields[0], |k| + 1);
    assert fields[0] == k + "=" + v;
    AssignFirst(fields, k, v);
    MapOfOne(k, v);
    var rest := Assign(fields[1..]);
    if fields[1..] == [] {
      AssignNothing();
      assert [(k, v)] + rest.pairs == [(k, v)];
    } else {
      AssignSets(fields[1..], k);
      MapOfConcat([(k, v)], rest.pairs);
    }
  }

  lemma {:induction false} AssignNothing()
    ensures Assign([]) == Reading([], true)
  {
  }

  lemma {:induction false} MapOfOne(k: string, v: string)
    ensures MapOf([(k, v)]) == map[k := v] && MapOf([]) == map[]
  {
    MapOfOneMore([], (k, v));
    assert [] + [(k, v)] == [(k, v)];
  }

  lemma {:induction false} MapOfOneMore(pairs: seq<(string, string)>, pair: (string, string))
    ensures MapOf(pairs + [pair]) == MapOf(pairs)[pair.0 := pair.1]
  {
    assert (pairs + [pair])[..|pairs|] == pairs;
  }

  lemma {:induction false} MapOfConcat(a: seq<(string, string)>, b: seq<(string, string)>)
    ensures MapOf(a + b) == MapOf(a) + MapOf(b)
    decreases |b|
  {
    hide MapOf;
    if b == [] {
      MapOfOne("", "");
      assert a + b == a;
    } else {
      var init, last := b[..|b| - 1], b[|b| - 1];
      MapOfConcat(a, init);
      MapOfOneMore(a + init, last);
      MapOfOneMore(init, last);
      UpdateSum(MapOf(a), MapOf(init), last.0, last.1);
      assert init + [last] == b && a + b == (a + init) + [last];
    }
  }

  lemma {:induction false} UpdateSum(m: map<string, string>, n: map<string, string>, k: string, v: string)
    ensures (m + n)[k := v] == m + n[k := v]
  {
  }

  /** What the lines of a file set, up to the first with a tilde that is expanded. */
  function Told(files: Files, env: Env, keys: seq<Bytes>): map<string, string>
    requires forall k :: k in keys ==> k in env
  {
    if keys == [] then map[]
    else
      var k := keys[0];
      if !TildeSafe(env[k]) then map[]
      else map[k := ValueLeft(files, k, env[k])] + Told(files, env, keys[1..])
  }

  lemma {:induction false} LineTold(files: Files, k: Bytes, v: Bytes)
    requires Tame(files) && IsName(k) && LiteralText(v)
    ensures var r := Execute(files, Words(Bares(Line(k, v))));
            && r.complete == TildeSafe(v)
            && MapOf(r.pairs) == if TildeSafe(v) then map[k := ValueLeft(files, k, v)] else map[]
  {
    LineExecutes(files, k, v);
    var fields := Fields(files, Bares(k + "=" + v));
    hide Execute, Words, Fields, Tame, IsName, LiteralText, TildeSafe, Assign;
    forall i | 0 <= i < |fields| ensures k + "=" <= fields[i] {
      FieldsSet(files, k, v, i);
    }
    AssignSets(fields, k);
  }

  lemma {:induction false} SourceLine(files: Files, line: string, rest: string)
    requires '\n' !in line && line != "" && rest != ""
    ensures Source(files, Bares(line + "\n" + rest))
         == Then(Execute(files, Words(Bares(line))), Source(files, Bares(rest)))
  {
    hide Execute, Words;
    var t := line + "\n" + rest;
    var ps := Bares(t);
    assert forall i :: 0 <= i < |line| ==> ps[i] == Bare(line[i]) && line[i] in line;
    assert ps[|line|] == Bare('\n');
    EndIs(ps, EndsLine, |line|);
    assert ps[..|line|] == Bares(line) && ps[|line| + 1..] == Bares(rest);
  }

  lemma {:induction false} SourceLast(files: Files, line: string)
    requires '\n' !in line && line != ""
    ensures Source(files, Bares(line)) == Execute(files, Words(Bares(line)))
  {
    hide Execute, Words;
    var ps := Bares(line);
    assert forall i :: 0 <= i < |line| ==> ps[i] == Bare(line[i]) && line[i] in line;
    EndIs(ps, EndsLine, |line|);
    assert ps[..|line|] == ps;
  }

  /** Names for keys, and values without characters that need quoting. */
  predicate PlainEntries(env: map<string, string>) {
    forall k :: k in env ==> IsName(k) && LiteralText(env[k])
  }

  predicate AllTildeSafe(env: map<string, string>, keys: seq<string>)
    requires forall k :: k in keys ==> k in env
  {
    forall k :: k in keys ==> TildeSafe(env[k])
  }

  lemma {:induction false} TellsFirst(files: Files, env: Env, keys: seq<Bytes>)
    requires keys != [] && forall k :: k in keys ==> k in env
    ensures var k, rest := keys[0], keys[1..];
            && Told(files, env, keys)
               == (if TildeSafe(env[k]) then map[k := ValueLeft(files, k, env[k])] + Told(files, env, rest) else map[])
            && AllTildeSafe(env, keys) == (TildeSafe(env[k]) && AllTildeSafe(env, rest))
            && (rest == [] ==> Told(files, env, rest) == map[] && AllTildeSafe(env, rest))
  {
    hide TildeSafe, ValueLeft;
    assert keys == [keys[0]] + keys[1..];
  }

  lemma {:induction false} SourceLines(files: Files, env: Env, keys: seq<Bytes>)
    requires Tame(files) && keys != [] && PlainEntries(env) && forall k :: k in keys ==> k in env
    ensures var r := Source(files, Bares(Join(Lines(env, keys), "\n")));
            MapOf(r.pairs) == Told(files, env, keys) && r.complete == AllTildeSafe(env, keys)
  {
    var k := keys[0];
    LineTold(files, k, env[k]);
    LineQuiet(k, env[k]);
    JoinLines(env, keys);
    TellsFirst(files, env, keys);
    var line := Line(k, env[k]);
    assert line != "";
    hide *;
    if |keys| == 1 {
      SourceLast(files, line);
    } else {
      SourceLines(files, env, keys[1..]);
      var rest := Join(Lines(env, keys[1..]), "\n");
      SourceLine(files, line, rest);
      MapOfThen(Execute(files, Words(Bares(line))), Source(files, Bares(rest)));
    }
  }

  lemma {:induction false} MapOfThen(r: Reading, more: Reading)
    ensures Then(r, more).complete == (r.complete && more.complete)
    ensures MapOf(Then(r, more).pairs) == if r.complete then MapOf(r.pairs) + MapOf(more.pairs) else MapOf(r.pairs)
  {
    hide MapOf;
    MapOfConcat(r.pairs, more.pairs);
  }

  lemma {:induction false} JoinLines(env: Env, keys: seq<Bytes>)
    requires keys != [] && forall k :: k in keys ==> k in env
    ensures var line, rest := Line(keys[0], env[keys[0]]), Join(Lines(env, keys[1..]), "\n");
            if |keys| == 1 then Join(Lines(env, keys), "\n") == line
            else rest != "" && Join(Lines(env, keys), "\n") == line + "\n" + rest
  {
    var rest := Lines(env, keys[1..]);
    assert Lines(env, keys) == [Line(keys[0], env[keys[0]])] + rest && Lines(env, keys)[1..] == rest;
    if |keys| > 1 {
      JoinNotEmpty(env, keys[1..]);
      assert rest[0] == Line(keys[1], env[keys[1]]);
    } else {
      assert keys[1..] == [];
    }
  }

  lemma {:induction false} JoinNotEmpty(env: Env, keys: seq<Bytes>)
    requires keys != [] && forall k :: k in keys ==> k in env
    ensures Join(Lines(env, keys), "\n") != ""
  {
    assert Lines(env, keys)[0] == Line(keys[0], env[keys[0]]);
  }

  lemma {:induction false} ToldKeys(files: Files, env: Env, keys: seq<Bytes>)
    requires forall k :: k in keys ==> k in env
    ensures forall k :: k in Told(files, env, keys) ==> k in keys
  {
    hide LastField, TildeSafe;
    if keys != [] {
      ToldKeys(files, env, keys[1..]);
    }
  }

  /** The entry reads as itself. */
  predicate Stays(files: Files, env: Env, k: Bytes)
    requires k in env
  {
    TildeSafe(env[k]) && ValueLeft(files, k, env[k]) == env[k]
  }

  /** The lines tell the map itself exactly when every entry stays as it is. */
  lemma {:induction false} ToldIff(files: Files, env: Env, keys: seq<Bytes>)
    requires Apart(keys) && forall k :: k in keys ==> k in env
    ensures Told(files, env, keys) == Restricted(env, keys) <==> forall k :: k in keys ==> Stays(files, env, k)
  {
    if keys == [] {
      assert Restricted(env, []) == map[];
    } else {
      ToldStep(files, env, keys);
      hide Told, Restricted, Stays;
      var rest := keys[1..];
      ToldIff(files, env, rest);
      assert keys == [keys[0]] + rest;
    }
  }

  lemma {:induction false} ToldStep(files: Files, env: Env, keys: seq<Bytes>)
    requires keys != [] && Apart(keys) && forall k :: k in keys ==> k in env
    ensures Told(files, env, keys) == Restricted(env, keys) <==>
            Stays(files, env, keys[0]) && Told(files, env, keys[1..]) == Restricted(env, keys[1..])
  {
    hide ValueLeft, TildeSafe;
    var k: Bytes := keys[0];
    var rest := keys[1..];
    assert keys == [k] + rest && k !in rest;
    ToldKeys(files, env, rest);
    RestrictedStep(env, k, rest);
    hide Restricted, Apart;
    if TildeSafe(env[k]) {
      OneMoreKey(k, ValueLeft(files, k, env[k]), Told(files, env, rest), env[k], Restricted(env, rest));
    } else {
      assert k in Restricted(env, keys);
    }
  }

  lemma {:induction false} RestrictedStep(env: Env, k: Bytes, rest: seq<Bytes>)
    requires k in env && k !in rest && forall x :: x in rest ==> x in env
    ensures forall x :: x in [k] + rest ==> x in env
    ensures Restricted(env, [k] + rest) == map[k := env[k]] + Restricted(env, rest)
    ensures k !in Restricted(env, rest) && k in Restricted(env, [k] + rest)
  {
  }

  lemma {:induction false} OneMoreKey(k: string, v: string, m: map<string, string>, w: string, n: map<string, string>)
    requires k !in m && k !in n
    ensures map[k := v] + m == map[k := w] + n <==> v == w && m == n
  {
    var a, b := map[k := v] + m, map[k := w] + n;
    if a == b {
      assert a[k] == v && b[k] == w;
      assert m.Keys == a.Keys - {k} && n.Keys == b.Keys - {k};
      assert forall x :: x in m ==> m[x] == a[x] == b[x] == n[x];
    }
  }
}
