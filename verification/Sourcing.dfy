/** Which environments a shell reads back from the file, and the driver's own variables. */
module Sourcing {
  import opened Outcomes
  import opened Text
  import opened Base64
  import opened EnvFile
  import opened Guest
  import opened Shell
  import opened ShellQuotes
  import opened ShellLines

  /** With plain entries, the file is read line by line. */
  lemma {:induction false} PlainIsTold(files: Files, env: Env, keys: seq<Bytes>)
    requires Tame(files) && Enumerates(keys, env) && PlainEntries(env)
    ensures var r := Sourced(files, Script(env, keys));
            && (MapOf(r.pairs) == env <==> ShellSafe(files, env))
            && (ShellSafe(files, env) ==> r.complete)
  {
    SortedKeys(env, keys);
    ScriptIs(env, keys);
    SafeIff(files, env);
    hide Sort, Script, Sourced, MapOf, Lines, Join, Told, Stays, TildeSafe, ShellSafe, PlainEntries, Tame;
    var sorted := Sort(keys);
    SortedApart(sorted);
    hide Sorted;
    PlainScriptReads(files, env, sorted);
    ToldIff(files, env, sorted);
    assert Restricted(env, sorted) == env;
  }

  lemma {:induction false} SafeIff(files: Files, env: Env)
    requires Tame(files) && PlainEntries(env)
    ensures ShellSafe(files, env) <==> forall k :: k in env ==> Stays(files, env, k)
    ensures ShellSafe(files, env) ==> forall k :: k in env ==> TildeSafe(env[k])
  {
    hide LastField, TildeSafe, IsName, LiteralText, Tame, ValueLeft;
    forall k | k in env
      ensures ValueLeft(files, k, env[k]) == env[k] <==> LastField(files, k, env[k]) == k + "=" + env[k]
    {
      ValueLeftIs(files, k, env[k]);
    }
  }

  lemma {:induction false} ValueLeftIs(files: Files, k: string, v: string)
    requires Tame(files) && IsName(k)
    ensures ValueLeft(files, k, v) == v <==> LastField(files, k, v) == k + "=" + v
  {
    var fields := Fields(files, Bares(k + "=" + v));
    FieldsSet(files, k, v, |fields| - 1);
    hide Fields, Tame, IsName;
    var f := LastField(files, k, v);
    assert f == k + "=" + f[|k| + 1..];
    assert (k + "=" + v)[|k| + 1..] == v;
  }

  lemma {:induction false} PlainScriptReads(files: Files, env: Env, keys: seq<Bytes>)
    requires Tame(files) && PlainEntries(env) && forall k :: k in keys ==> k in env
    ensures var r := Sourced(files, Join(Lines(env, keys), "\n"));
            MapOf(r.pairs) == Told(files, env, keys) && r.complete == AllTildeSafe(env, keys)
  {
    var t := Join(Lines(env, keys), "\n");
    LinesQuiet(env, keys);
    hide Quiet, Read, Tame;
    JoinQuiet(Lines(env, keys));
    QuietIsRead(t);
    if keys == [] {
      assert t == "";
      SourceNothing(files);
    } else {
      SourceLines(files, env, keys);
    }
  }

  lemma {:induction false} SourceNothing(files: Files)
    ensures Source(files, Bares("")) == Reading([], true)
  {
  }

  lemma {:induction false} LinesQuiet(env: Env, keys: seq<Bytes>)
    requires PlainEntries(env) && forall k :: k in keys ==> k in env
    ensures forall l :: l in Lines(env, keys) ==> Quiet(l)
  {
    hide Line, Quiet, IsName, LiteralText;
    if keys != [] {
      LineQuiet(keys[0], env[keys[0]]);
      LinesQuiet(env, keys[1..]);
    }
  }

  /** A map that is read back has plain entries: the reading of anything else uses something up. */
  lemma {:induction false} SourcedIsPlain(files: Files, env: Env, keys: seq<Bytes>)
    requires Tame(files) && Enumerates(keys, env) && MapOf(Sourced(files, Script(env, keys)).pairs) == env
    ensures PlainEntries(env)
  {
    SortedKeys(env, keys);
    var sorted := Sort(keys);
    ScriptIs(env, keys);
    hide Sort, Script, Source, Read, MapOf, IsName, LiteralText, Quotes, QuotesIn, Naked, Tame;
    var t := Script(env, keys);
    var ps := Read(t, true, Plain);
    var pairs := Source(files, ps).pairs;
    SourceNames(files, ps);
    forall k | k in env ensures IsName(k) && (k, env[k]) in pairs {
      MapOfPairs(pairs, k);
    }
    JoinedQuotes(env, sorted);
    ReadingUsesQuotes(t, true, Plain);
    SourceQuotes(files, ps);
    SortedApart(sorted);
    FinalQuotes(pairs, sorted);
    NoQuotesIff(t);
    ReadNaked(t, true);
    SourceLiteral(files, ps);
  }

  lemma {:induction false} SortedApart(keys: seq<string>)
    requires Sorted(keys)
    ensures Apart(keys)
  {
    forall i, j | 0 <= i < j < |keys| ensures keys[i] != keys[j] {
      BeforeIrreflexive(keys[i]);
    }
  }

  /**
   A shell that reads the decoded file sets exactly the variables of the map to
   exactly their values if and only if every key is a name; every value is
   without blanks, newlines, quote characters and what starts expansions and
   operators, and without tildes at its start or behind a colon; and no setting
   is a pattern that matches path names, unless the last of them is the setting
   itself.
   */
  lemma {:induction false} SourcedIff(files: Files, env: Env, keys: seq<Bytes>)
    requires Tame(files) && Enumerates(keys, env)
    ensures Decode(Encode(Script(env, keys))) == Some(Script(env, keys))
    ensures MapOf(Sourced(files, Script(env, keys)).pairs) == env <==> ShellSafe(files, env)
    ensures ShellSafe(files, env) ==> Sourced(files, Script(env, keys)).complete
  {
    SafeIsPlain(files, env);
    hide Script, Sourced, MapOf, ShellSafe, Encode, Decode, PlainEntries, Tame;
    DecodeEncode(Script(env, keys));
    if PlainEntries(env) {
      PlainIsTold(files, env, keys);
    }
    if MapOf(Sourced(files, Script(env, keys)).pairs) == env {
      SourcedIsPlain(files, env, keys);
    }
  }

  lemma {:induction false} SafeIsPlain(files: Files, env: map<string, string>)
    ensures ShellSafe(files, env) ==> PlainEntries(env)
  {
  }

  /** A value that makes a pattern is read back where the pattern matches nothing. */
  lemma {:induction false} UnmatchedPattern()
    ensures Tame(map[]) && ShellSafe(map[], map["X" := "a[b*"])
  {
    assert "X" + "=" + "a[b*" == "X=a[b*";
    TextOfBares("X=a[b*");
    assert LastField(map[], "X", "a[b*") == "X=a[b*" by { hide TextOf, HasPattern; }
    assert LiteralText("a[b*");
  }

  /** The same kind of value is lost where a file's name fits it. */
  lemma {:induction false} MatchedPattern()
    ensures var files: Files := map[Bares("X=a*") := ["X=ab"]];
            Tame(files) && !ShellSafe(files, map["X" := "a*"])
  {
    var files: Files := map[Bares("X=a*") := ["X=ab"]];
    var w := Bares("X=a*");
    assert "X" + "=" + "a*" == "X=a*";
    EndIs(w, StartsPattern, 3);
    assert w[..3] == Bares("X=a");
    TextOfBares("X=a");
    hide TextOf, End;
    assert LiteralStart(w) == "X=a";
    assert LiteralText("X=ab");
    assert LastField(files, "X", "a*") == "X=ab";
  }

  // ----- The driver's own variables -----

  lemma {:induction false} WordThen(a: seq<Piece>, rest: seq<Piece>)
    requires a != [] && forall i :: 0 <= i < |a| ==> !EndsWord(a[i])
    ensures Words(a + [Bare(' ')] + rest) == [a] + Words(rest)
  {
    var line := a + [Bare(' ')] + rest;
    assert forall i :: 0 <= i < |a| ==> line[i] == a[i];
    assert line[|a|] == Bare(' ');
    EndIs(line, EndsWord, |a|);
    assert line[..|a|] == a && line[|a|..] == [Bare(' ')] + rest && ([Bare(' ')] + rest)[1..] == rest;
  }

  lemma {:induction false} LiteralQuiet(b: string)
    requires b != "" && b[0] != '#' && LiteralText(b)
    ensures Quiet(b)
  {
    hide IsQuote, NeedsMore;
    forall i | 0 <= i < |b| && b[i] == '#' ensures i > 0 && !Breaks(b[i - 1]) {
      assert b[i - 1] in b;
    }
  }

  lemma {:induction false} SpaceQuiet()
    ensures Quiet(" ")
  {
  }

  function TwoPart(setting: string, second: string): string {
    "export " + setting + " " + second
  }

  lemma {:induction false} TwoPartRead(setting: string, second: string)
    requires Quiet(setting) && Quiet(second)
    ensures Read(TwoPart(setting, second), true, Plain) == Bares(TwoPart(setting, second))
  {
    hide Read, Quiet;
    ExportQuiet();
    SpaceQuiet();
    QuietConcat("export ", setting);
    QuietConcat("export " + setting, " ");
    QuietConcat("export " + setting + " ", second);
    QuietIsRead(TwoPart(setting, second));
  }

  lemma {:induction false} TwoPartPieces(setting: string, second: string)
    ensures Bares(TwoPart(setting, second))
         == Bares("export") + [Bare(' ')] + (Bares(setting) + [Bare(' ')] + Bares(second))
  {
    var line := TwoPart(setting, second);
    var ps := Bares("export") + [Bare(' ')] + (Bares(setting) + [Bare(' ')] + Bares(second));
    var n := |setting|;
    assert |line| == |ps|;
    forall i | 0 <= i < |line| ensures Bares(line)[i] == ps[i] {
      if i < 7 {
      } else if i < 7 + n {
        assert line[i] == setting[i - 7];
      } else if i > 7 + n {
        assert line[i] == second[i - 8 - n];
      }
    }
  }

  /** The words of a line that sets a value with a blank in it. */
  lemma {:induction false} TwoPartWords(setting: string, second: string)
    requires setting != "" && second != ""
    requires LiteralText(setting) && LiteralText(second)
    ensures Words(Bares(TwoPart(setting, second))) == [Bares("export"), Bares(setting), Bares(second)]
  {
    hide IsQuote, NeedsMore, Words, TwoPart;
    TwoPartPieces(setting, second);
    WordThen(Bares("export"), Bares(setting) + [Bare(' ')] + Bares(second));
    assert forall i :: 0 <= i < |setting| ==> setting[i] in setting;
    assert forall i :: 0 <= i < |second| ==> second[i] in second;
    TwoWords(Bares(setting), Bares(second));
  }

  lemma {:induction false} TwoPartIsLine(setting: string, second: string)
    requires LiteralText(setting) && LiteralText(second)
    ensures TwoPart(setting, second) != "" && '\n' !in TwoPart(setting, second)
  {
    hide IsQuote, NeedsMore;
    assert !IsLiteral('\n') && '\n' !in "export " && '\n' !in " ";
  }

  lemma {:induction false} QuietIsRead(t: string)
    requires Quiet(t)
    ensures Read(t, true, Plain) == Bares(t)
  {
    hide IsQuote, NeedsMore, Breaks;
    QuietReads(t, true);
  }

  predicate Patternless(t: string) {
    forall c :: c in t ==> !IsPattern(c)
  }

  lemma {:induction false} PatternlessFields(files: Files, t: string)
    requires Patternless(t)
    ensures Fields(files, Bares(t)) == [t]
  {
    var w := Bares(t);
    forall i | 0 <= i < |w| ensures !StartsPattern(w[i]) {
      assert t[i] in t;
    }
    EndIs(w, StartsPattern, |w|);
    TextOfBares(t);
  }

  lemma {:induction false} TwoPartExecutes(files: Files, k: string, v: string, second: string)
    requires IsName(k) && TildeSafe(v) && '=' !in second && !IsName(second)
    requires Patternless(k + "=" + v) && Patternless(second)
    ensures Execute(files, [Bares("export"), Bares(k + "=" + v), Bares(second)]) == Reading([(k, v)], false)
  {
    NameCharacters(k);
    TildeIff(k, v);
    var setting := k + "=" + v;
    PatternlessFields(files, setting);
    PatternlessFields(files, second);
    hide IsName, HasTilde, Cut, TextOf, TildeSafe, Fields, Patternless, IsLiteral;
    CutFirst(k, v, '=');
    assert k + ['='] + v == setting;
    TextOfBares("export");
    assert [second][1..] == [] && Assign([second]) == Reading([], false);
    assert [setting][1..] == [] && Assign([]) == Reading([], true);
    assert Assign([setting]) == Reading([(k, v)] + [], true);
    var words := [Bares("export"), Bares(setting), Bares(second)];
    assert words[1..] == [Bares(setting), Bares(second)];
    assert [Bares(setting), Bares(second)][1..] == [Bares(second)];
    assert Export(files, [Bares(second)]) == Reading([], false);
    assert Export(files, [Bares(setting), Bares(second)]) == Reading([(k, v)] + [], false);
  }

  /** A value with a blank is cut there; when the rest is no name, export refuses it and the reading ends. */
  lemma {:induction false} ValueCut(files: Files, k: string, v: string, second: string)
    requires IsName(k) && LiteralText(v) && TildeSafe(v) && Patternless(k + "=" + v)
    requires LiteralText(second) && Patternless(second)
    requires second != "" && second[0] != '#' && '=' !in second && !IsName(second)
    ensures Sourced(files, TwoPart(k + "=" + v, second)) == Reading([(k, v)], false)
  {
    SettingQuiet(k, v);
    LiteralQuiet(second);
    hide IsName, HasTilde, Quiet, IsLiteral, Words, Read, Source, Execute, TwoPart, TildeSafe, Patternless;
    TwoPartRead(k + "=" + v, second);
    TwoPartIsLine(k + "=" + v, second);
    TwoPartWords(k + "=" + v, second);
    SourceLast(files, TwoPart(k + "=" + v, second));
    TwoPartExecutes(files, k, v, second);
  }

  /** The default name servers: the variable gets the first, and the reading ends at the second. */
  lemma {:induction false} DefaultServersCut(files: Files)
    ensures Sourced(files, "export VM_DNS=8.8.8.8 8.8.4.4") == Reading([("VM_DNS", "8.8.8.8")], false)
  {
    hide Sourced;
    assert LiteralText("8.8.8.8") && LiteralText("8.8.4.4");
    ValueCut(files, "VM_DNS", "8.8.8.8", "8.8.4.4");
    assert TwoPart("VM_DNS" + "=" + "8.8.8.8", "8.8.4.4") == "export VM_DNS=8.8.8.8 8.8.4.4";
  }

  lemma {:induction false} JoinedServers(servers: seq<string>)
    requires |servers| >= 2
    ensures ' ' in Join(servers, " ")
  {
    assert Join(servers, " ")[|servers[0]|] == ' ';
  }

  /** A VM with two or more name servers, as by default, has an environment that no shell reads back from the file. */
  lemma {:induction false} ServersNeverSourced(files: Files, env: map<string, string>, s: NetworkSettings, told: Env,
      keys: seq<Bytes>)
    requires Tame(files)
    requires |s.nameservers| >= 2 && told == GuestEnv(env, Some(s)) && Enumerates(keys, told)
    ensures MapOf(Sourced(files, Script(told, keys)).pairs) != told
  {
    JoinedServers(s.nameservers);
    assert told["VM_DNS"] == Join(s.nameservers, " ");
    assert !IsLiteral(' ') && !LiteralText(told["VM_DNS"]);
    SourcedIff(files, told, keys);
  }

  /** In particular every VM whose task names no servers of its own. */
  lemma {:induction false} DefaultNeverSourced(files: Files, d: Defaults, cfg: DomainConfig, ip: string,
      env: map<string, string>, told: Env, keys: seq<Bytes>)
    requires Tame(files)
    requires Derive(d, cfg, ip).Some? && (cfg.bridge.Some? ==> cfg.bridge.value.dns == [])
    requires told == GuestEnv(env, Derive(d, cfg, ip)) && Enumerates(keys, told)
    ensures MapOf(Sourced(files, Script(told, keys)).pairs) != told
  {
    ServersNeverSourced(files, env, Derive(d, cfg, ip).value, told, keys);
  }
}
