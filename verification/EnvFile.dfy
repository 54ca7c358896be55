/**
 The environment file of a task: the map printed as sorted "export" lines and
 packed in base64.  A map has no order of its own, so the lines may only
 depend on its contents.
 */
module EnvFile {
  import opened Outcomes
  import opened Text
  import opened Base64

  type Env = map<Bytes, Bytes>

  /** The order of sort.Strings: by bytes, a proper prefix first. */
  predicate Before(a: string, b: string) {
    b != "" && (a == "" || a[0] < b[0] || (a[0] == b[0] && Before(a[1..], b[1..])))
  }

  predicate Sorted(keys: seq<string>) {
    forall i, j :: 0 <= i < j < |keys| ==> Before(keys[i], keys[j])
  }

  /** One key put in its place. */
  function Insert(k: Bytes, keys: seq<Bytes>): (r: seq<Bytes>)
    ensures multiset(r) == multiset(keys) + multiset{k}
  {
    if keys == [] || Before(k, keys[0]) then
      [k] + keys
    else
      assert keys == [keys[0]] + keys[1..];
      [keys[0]] + Insert(k, keys[1..])
  }

  /** sort.Strings. */
  function Sort(keys: seq<Bytes>): (r: seq<Bytes>)
    ensures multiset(r) == multiset(keys)
  {
    if keys == [] then []
    else
      assert keys == [keys[0]] + keys[1..];
      Insert(keys[0], Sort(keys[1..]))
  }

  /** The texts agree up to i, and there a ends or has the smaller byte. */
  predicate DiffersAt(a: string, b: string, i: nat) {
    i <= |a| && i < |b| && a[..i] == b[..i] && (i < |a| ==> a[i] < b[i])
  }

  /** What the order means: at the first place where the texts differ, the earlier one ends or has the smaller byte. */
  lemma {:induction false} BeforeIff(a: string, b: string)
    ensures Before(a, b) <==> exists i :: 0 <= i <= |a| && DiffersAt(a, b, i)
  {
    if a == "" || b == "" || a[0] != b[0] {
      assert b != "" ==> (Before(a, b) <==> DiffersAt(a, b, 0));
      assert forall i :: 0 < i <= |a| && DiffersAt(a, b, i) ==> a[..i][0] == b[..i][0];
    } else {
      BeforeIff(a[1..], b[1..]);
      if Before(a, b) {
        var i :| 0 <= i <= |a[1..]| && DiffersAt(a[1..], b[1..], i);
        assert a[..i + 1] == [a[0]] + a[1..][..i] && b[..i + 1] == [b[0]] + b[1..][..i];
        assert DiffersAt(a, b, i + 1);
      }
      forall i | 0 <= i <= |a| && DiffersAt(a, b, i) ensures Before(a, b) {
        assert i > 0;
        assert a[1..][..i - 1] == a[..i][1..] && b[1..][..i - 1] == b[..i][1..];
        assert DiffersAt(a[1..], b[1..], i - 1);
      }
    }
  }

  lemma {:induction false} BeforeTransitive(a: string, b: string, c: string)
    requires Before(a, b) && Before(b, c)
    ensures Before(a, c)
  {
    if a != "" && a[0] == b[0] == c[0] {
      BeforeTransitive(a[1..], b[1..], c[1..]);
    }
  }

  lemma {:induction false} BeforeTotal(a: string, b: string)
    ensures Before(a, b) || Before(b, a) || a == b
  {
    if a != "" && b != "" && a[0] == b[0] {
      BeforeTotal(a[1..], b[1..]);
      assert a == [a[0]] + a[1..] && b == [b[0]] + b[1..];
    }
  }

  lemma {:induction false} BeforeIrreflexive(a: string)
    ensures !Before(a, a)
  {
    if a != "" {
      BeforeIrreflexive(a[1..]);
    }
  }

  lemma {:induction false} InsertSorts(k: Bytes, keys: seq<Bytes>)
    requires Sorted(keys) && k !in keys
    ensures Sorted(Insert(k, keys))
  {
    if keys == [] {
    } else if Before(k, keys[0]) {
      forall j | 1 <= j < |keys| ensures Before(k, keys[j]) {
        BeforeTransitive(k, keys[0], keys[j]);
      }
    } else {
      BeforeTotal(k, keys[0]);
      InsertSorts(k, keys[1..]);
      var rest := Insert(k, keys[1..]);
      forall j | 0 <= j < |rest| ensures Before(keys[0], rest[j]) {
        assert rest[j] in multiset(rest);
      }
    }
  }

  predicate NoRepeats(keys: seq<Bytes>) {
    forall i, j :: 0 <= i < j < |keys| ==> keys[i] != keys[j]
  }

  lemma {:induction false} SortMembers(keys: seq<Bytes>, k: Bytes)
    ensures k in Sort(keys) <==> k in keys
  {
    assert k in Sort(keys) <==> k in multiset(Sort(keys));
    assert k in keys <==> k in multiset(keys);
  }

  lemma {:induction false} SortSorts(keys: seq<Bytes>)
    requires NoRepeats(keys)
    ensures Sorted(Sort(keys))
  {
    if keys != [] {
      SortSorts(keys[1..]);
      SortMembers(keys[1..], keys[0]);
      InsertSorts(keys[0], Sort(keys[1..]));
    }
  }

  lemma {:induction false} RestIsAfter(keys: seq<string>, k: string)
    requires keys != [] && Sorted(keys)
    ensures k in keys[1..] <==> k in keys && k != keys[0]
  {
    BeforeIrreflexive(keys[0]);
    assert keys == [keys[0]] + keys[1..];
  }

  /** Sorted lists of the same keys are the same list. */
  lemma {:induction false} SortedUnique(a: seq<string>, b: seq<string>)
    requires Sorted(a) && Sorted(b)
    requires forall k :: k in a <==> k in b
    ensures a == b
  {
    if a != [] {
      assert a[0] in a && a[0] in b;
    }
    if b != [] {
      assert b[0] in b && b[0] in a;
      SameFirst(a, b);
      forall k ensures k in a[1..] <==> k in b[1..] {
        RestIsAfter(a, k);
        RestIsAfter(b, k);
      }
      SortedUnique(a[1..], b[1..]);
      assert a == [a[0]] + a[1..] && b == [b[0]] + b[1..];
    }
  }

  lemma {:induction false} SameFirst(a: seq<string>, b: seq<string>)
    requires a != [] && b != [] && Sorted(a) && Sorted(b)
    requires a[0] in b && b[0] in a
    ensures a[0] == b[0]
  {
    var i :| 0 <= i < |b| && b[i] == a[0];
    var j :| 0 <= j < |a| && a[j] == b[0];
    if i > 0 && j > 0 {
      BeforeTransitive(a[0], b[0], a[0]);
      BeforeIrreflexive(a[0]);
    }
  }

  /** One of the orders in which the map's keys may be walked. */
  ghost predicate Enumerates(keys: seq<Bytes>, env: Env) {
    NoRepeats(keys) && (forall k :: k in keys <==> k in env)
  }

  function Line(k: Bytes, v: Bytes): Bytes {
    "export " + k + "=" + v
  }

  function Lines(env: Env, keys: seq<Bytes>): seq<Bytes>
    requires forall k :: k in keys ==> k in env
  {
    if keys == [] then [] else [Line(keys[0], env[keys[0]])] + Lines(env, keys[1..])
  }

  lemma {:induction false} JoinBytes(lines: seq<Bytes>)
    ensures forall c :: c in Join(lines, "\n") ==> c as int < 256
  {
    if |lines| > 1 {
      JoinBytes(lines[1..]);
    }
  }

  /** The text of the file before it is packed, when the keys are walked in this order. */
  function Script(env: Env, keys: seq<Bytes>): Bytes
    requires Enumerates(keys, env)
  {
    SortedKeys(env, keys);
    JoinBytes(Lines(env, Sort(keys)));
    Join(Lines(env, Sort(keys)), "\n")
  }

  lemma {:induction false} SortedKeys(env: Env, keys: seq<Bytes>)
    requires Enumerates(keys, env)
    ensures Sorted(Sort(keys)) && forall k :: k in Sort(keys) <==> k in env
  {
    SortSorts(keys);
    forall k ensures k in Sort(keys) <==> k in env {
      SortMembers(keys, k);
    }
  }

  /** The script depends on the map alone, not on the order in which its keys are walked. */
  lemma {:induction false} OrderDoesNotMatter(env: Env, a: seq<Bytes>, b: seq<Bytes>)
    requires Enumerates(a, env) && Enumerates(b, env)
    ensures Script(env, a) == Script(env, b)
  {
    SortedKeys(env, a);
    SortedKeys(env, b);
    SortedUnique(Sort(a), Sort(b));
  }

  /** The text up to the first c, and the text after it. */
  function Cut(s: string, c: char): (r: Option<(string, string)>)
    ensures r.None? <==> c !in s
    ensures r.Some? ==> s == r.value.0 + [c] + r.value.1 && c !in r.value.0
  {
    if s == "" then None
    else
      assert s == [s[0]] + s[1..];
      if s[0] == c then Some(("", s[1..]))
      else
        match Cut(s[1..], c)
        case None => None
        case Some(rest) => Some(([s[0]] + rest.0, rest.1))
  }

  lemma {:induction false} CutFirst(k: string, v: string, c: char)
    requires c !in k
    ensures Cut(k + [c] + v, c) == Some((k, v))
  {
    var s := k + [c] + v;
    if k == "" {
      assert s[1..] == v;
    } else {
      assert k[0] in k && s[1..] == k[1..] + [c] + v;
      forall x | x in k[1..] ensures x in k {}
      CutFirst(k[1..], v, c);
      assert [k[0]] + k[1..] == k;
    }
  }

  /** Splitting the text at newlines and each line at its first "=": each line sets one key, the last setting wins. */
  function ParseLines(lines: seq<string>): Option<map<string, string>> {
    if lines == [] then Some(map[])
    else
      var last := lines[|lines| - 1];
      match ParseLines(lines[..|lines| - 1])
      case None => None
      case Some(m) =>
        if !HasPrefix(last, "export ") then None
        else
          match Cut(last[7..], '=')
          case None => None
          case Some(pair) => Some(m[pair.0 := pair.1])
  }

  function Parse(content: string): Option<map<string, string>> {
    match Decode(content)
    case None => None
    case Some(script) => ParseLines(Split(script, '\n'))
  }

  /** Keys without "=" and newline, values without newline. */
  predicate Printable(env: map<string, string>) {
    forall k :: k in env ==> '=' !in k && '\n' !in k && '\n' !in env[k]
  }

  function Restricted(env: Env, keys: seq<Bytes>): map<string, string>
    requires forall k :: k in keys ==> k in env
  {
    map k | k in keys :: env[k]
  }

  lemma {:induction false} LinesSnoc(env: Env, keys: seq<Bytes>, k: Bytes)
    requires k in env && forall x :: x in keys ==> x in env
    ensures forall x :: x in keys + [k] ==> x in env
    ensures Lines(env, keys + [k]) == Lines(env, keys) + [Line(k, env[k])]
  {
    if keys != [] {
      LinesSnoc(env, keys[1..], k);
      assert (keys + [k])[1..] == keys[1..] + [k];
    }
  }

  lemma {:induction false} LineParses(k: Bytes, v: Bytes)
    requires '=' !in k
    ensures HasPrefix(Line(k, v), "export ") && Cut(Line(k, v)[7..], '=') == Some((k, v))
  {
    assert Line(k, v)[7..] == k + ['='] + v;
    CutFirst(k, v, '=');
  }

  lemma {:induction false} ParseOneMore(lines: seq<string>, k: Bytes, v: Bytes)
    requires '=' !in k && ParseLines(lines).Some?
    ensures ParseLines(lines + [Line(k, v)]) == Some(ParseLines(lines).value[k := v])
  {
    hide Line, Cut;
    var longer := lines + [Line(k, v)];
    assert longer[..|longer| - 1] == lines && longer[|longer| - 1] == Line(k, v);
    LineParses(k, v);
  }

  lemma {:induction false} LinesParse(env: Env, keys: seq<Bytes>)
    requires forall k :: k in keys ==> k in env && '=' !in k
    ensures ParseLines(Lines(env, keys)) == Some(Restricted(env, keys))
    decreases |keys|
  {
    if keys == [] {
      assert Restricted(env, []) == map[];
    } else {
      hide ParseLines, Line;
      var init, k := keys[..|keys| - 1], keys[|keys| - 1];
      assert keys == init + [k];
      LinesParse(env, init);
      LinesSnoc(env, init, k);
      ParseOneMore(Lines(env, init), k, env[k]);
      assert Restricted(env, keys) == Restricted(env, init)[k := env[k]];
    }
  }

  /** No line of a split text gives a key or value that could not have been printed on it. */
  lemma {:induction false} ParsedIsPrintable(lines: seq<string>)
    requires forall l :: l in lines ==> '\n' !in l
    requires ParseLines(lines).Some?
    ensures Printable(ParseLines(lines).value)
    decreases |lines|
  {
    if lines != [] {
      var last := lines[|lines| - 1];
      assert last in lines;
      ParsedIsPrintable(lines[..|lines| - 1]);
      var pair := Cut(last[7..], '=').value;
      assert last == last[..7] + (pair.0 + ['='] + pair.1);
    }
  }

  lemma {:induction false} LineCharacters(k: Bytes, v: Bytes)
    requires '\n' !in k && '\n' !in v
    ensures '\n' !in Line(k, v)
  {
  }

  lemma {:induction false} LinesAreLines(env: Env, keys: seq<Bytes>)
    requires Printable(env)
    requires forall k :: k in keys ==> k in env
    ensures |Lines(env, keys)| == |keys|
    ensures forall l :: l in Lines(env, keys) ==> '\n' !in l
  {
    if keys != [] {
      LineCharacters(keys[0], env[keys[0]]);
      LinesAreLines(env, keys[1..]);
    }
  }

  lemma {:induction false} ScriptParses(env: Env, keys: seq<Bytes>)
    requires env != map[] && Printable(env) && Enumerates(keys, env)
    ensures ParseLines(Split(Script(env, keys), '\n')) == Some(env)
  {
    hide Sort, Lines, Split, ParseLines, Join;
    SortedKeys(env, keys);
    var sorted := Sort(keys);
    LinesAreLines(env, sorted);
    var k :| k in env;
    assert k in sorted;
    assert "\n" == ['\n'];
    SplitJoin(Lines(env, sorted), '\n');
    LinesParse(env, sorted);
    assert Restricted(env, sorted) == env;
  }

  /** Decoding the file and reading its lines gives the map back exactly when every entry is printable. */
  lemma {:induction false} RecoveredIff(env: Env, keys: seq<Bytes>)
    requires env != map[] && Enumerates(keys, env)
    ensures Parse(Encode(Script(env, keys))) == Some(env) <==> Printable(env)
  {
    hide Decode, Encode, Split, ParseLines, Script;
    DecodeEncode(Script(env, keys));
    var lines := Split(Script(env, keys), '\n');
    if Printable(env) {
      ScriptParses(env, keys);
    }
    if ParseLines(lines) == Some(env) {
      ParsedIsPrintable(lines);
    }
  }

  /** A file cloud-init writes into the guest. */
  datatype File = File(path: string, permissions: string, encoding: string, content: string)

  const ENV_FILE_PATH := "/etc/profile.d/virt.sh"
  const ENV_FILE_PERMISSIONS := "777"

  /** envFileFromMap: nothing for an empty map, otherwise the packed script. */
  method EnvFileFromMap(env: Env) returns (file: Option<File>)
    ensures file.None? <==> env == map[]
    ensures file.Some? ==> forall keys :: Enumerates(keys, env) ==>
              file.value == File(ENV_FILE_PATH, ENV_FILE_PERMISSIONS, "b64", Encode(Script(env, keys)))
  {
    hide Script, Sort, Encode, Before, Join, Line;
    if |env| == 0 {
      return None;
    }
    var keys: seq<Bytes> := [];
    var left := env.Keys;
    while left != {}
      invariant left <= env.Keys
      invariant NoRepeats(keys)
      invariant forall k :: k in keys <==> k in env && k !in left
      decreases |left|
    {
      var k :| k in left;
      keys := keys + [k];
      left := left - {k};
    }
    SortedKeys(env, keys);
    var sorted := Sort(keys);
    var lines: seq<Bytes> := [];
    for i := 0 to |sorted|
      invariant lines == Lines(env, sorted[..i])
    {
      LinesSnoc(env, sorted[..i], sorted[i]);
      assert sorted[..i + 1] == sorted[..i] + [sorted[i]];
      lines := lines + [Line(sorted[i], env[sorted[i]])];
    }
    assert sorted[..|sorted|] == sorted;
    JoinBytes(lines);
    var encoded := Encode(Join(lines, "\n"));
    forall other | Enumerates(other, env) ensures encoded == Encode(Script(env, other)) {
      OrderDoesNotMatter(env, other, keys);
      ScriptIs(env, keys);
    }
    file := Some(File(ENV_FILE_PATH, ENV_FILE_PERMISSIONS, "b64", encoded));
  }

  lemma {:induction false} ScriptIs(env: Env, keys: seq<Bytes>)
    requires Enumerates(keys, env)
    ensures forall k :: k in Sort(keys) ==> k in env
    ensures Script(env, keys) == Join(Lines(env, Sort(keys)), "\n")
  {
    SortedKeys(env, keys);
  }
}
