/**
 Path containment as internal/shared/domain.go decides it: Go's
 path/filepath on a slash-separated system, read as an operation on the
 elements of a path.
 */
module Paths {
  import opened Outcomes
  import opened Text

  /** A path in its shortest form: rooted or not, and its elements. */
  datatype Cleaned = Cleaned(rooted: bool, elements: seq<string>)

  const UP := ".."

  /** One element of a path applied to the elements before it. */
  function Push(rooted: bool, stack: seq<string>, word: string): seq<string> {
    if word == "" || word == "." then stack
    else if word != UP then stack + [word]
    else if stack != [] && stack[|stack| - 1] != UP then stack[..|stack| - 1]
    else if rooted then stack
    else stack + [UP]
  }

  function PushAll(rooted: bool, stack: seq<string>, words: seq<string>): seq<string>
    decreases |words|
  {
    if words == [] then stack else PushAll(rooted, Push(rooted, stack, words[0]), words[1..])
  }

  predicate Rooted(path: string) {
    HasPrefix(path, "/")
  }

  /** filepath.Clean, before it is written out again. */
  function Clean(path: string): Cleaned {
    Cleaned(Rooted(path), PushAll(Rooted(path), [], Split(path, '/')))
  }

  function Written(c: Cleaned): string {
    if c.rooted then "/" + Join(c.elements, "/")
    else if c.elements == [] then "."
    else Join(c.elements, "/")
  }

  /** filepath.Join of two non-empty elements. */
  function JoinTwo(dir: string, name: string): string {
    Written(Clean(dir + "/" + name))
  }

  /** An element a cleaned path can hold. */
  predicate Element(word: string) {
    word != "" && word != "." && '/' !in word
  }

  predicate Plain(word: string) {
    Element(word) && word != UP
  }

  /** Plain elements only, after some ".." when the path is relative. */
  predicate Normal(rooted: bool, stack: seq<string>) {
    && (forall i :: 0 <= i < |stack| ==> Element(stack[i]))
    && (forall i :: 0 <= i < |stack| && stack[i] == UP ==> !rooted)
    && (forall i, j :: 0 <= i < j < |stack| && stack[j] == UP ==> stack[i] == UP)
  }

  lemma {:induction false} PushAllNormal(rooted: bool, stack: seq<string>, words: seq<string>)
    requires Normal(rooted, stack)
    requires forall w :: w in words ==> '/' !in w
    ensures Normal(rooted, PushAll(rooted, stack, words))
    decreases |words|
  {
    if words != [] {
      assert words[0] in words;
      PushAllNormal(rooted, Push(rooted, stack, words[0]), words[1..]);
    }
  }

  lemma {:induction false} CleanIsNormal(path: string)
    ensures Normal(Clean(path).rooted, Clean(path).elements)
  {
    PushAllNormal(Rooted(path), [], Split(path, '/'));
  }

  lemma {:induction false} PushAllConcat(rooted: bool, stack: seq<string>, a: seq<string>, b: seq<string>)
    ensures PushAll(rooted, stack, a + b) == PushAll(rooted, PushAll(rooted, stack, a), b)
    decreases |a|
  {
    if a == [] {
      assert a + b == b;
    } else {
      assert (a + b)[1..] == a[1..] + b;
      PushAllConcat(rooted, Push(rooted, stack, a[0]), a[1..], b);
    }
  }

  /** Elements in normal order stack up unchanged. */
  lemma {:induction false} NormalStays(rooted: bool, stack: seq<string>, more: seq<string>)
    requires Normal(rooted, stack + more)
    ensures PushAll(rooted, stack, more) == stack + more
    decreases |more|
  {
    if more == [] {
      assert stack + more == stack;
    } else {
      assert (stack + more)[|stack|] == more[0];
      assert stack != [] ==> (stack + more)[|stack| - 1] == stack[|stack| - 1];
      assert stack + more == (stack + [more[0]]) + more[1..];
      NormalStays(rooted, stack + [more[0]], more[1..]);
    }
  }

  lemma {:induction false} WrittenEmpty(rooted: bool)
    ensures PushAll(rooted, [], Split(Written(Cleaned(rooted, [])), '/')) == []
  {
    var words := Split(Written(Cleaned(rooted, [])), '/');
    if rooted {
      SplitPrefix("", "", '/');
      assert words == ["", ""] && words[1..] == [""] && words[1..][1..] == [];
    } else {
      assert words == ["."] && words[1..] == [];
    }
  }

  lemma {:induction false} JoinedWords(elements: seq<string>)
    requires elements != []
    requires forall i :: 0 <= i < |elements| ==> Element(elements[i])
    ensures Split(Join(elements, "/"), '/') == elements
    ensures !Rooted(Join(elements, "/"))
  {
    hide Split;
    assert forall w :: w in elements ==> '/' !in w;
    assert "/" == ['/'];
    SplitJoin(elements, '/');
    assert Element(elements[0]) && elements[0] <= Join(elements, "/");
    assert Join(elements, "/")[0] == elements[0][0];
  }

  lemma {:induction false} WrittenWords(c: Cleaned)
    requires Normal(c.rooted, c.elements)
    ensures Rooted(Written(c)) == c.rooted
    ensures PushAll(c.rooted, [], Split(Written(c), '/')) == c.elements
  {
    hide Split, Join;
    if c.elements == [] {
      WrittenEmpty(c.rooted);
    } else {
      assert [] + c.elements == c.elements;
      NormalStays(c.rooted, [], c.elements);
      JoinedWords(c.elements);
      if c.rooted {
        var body := Join(c.elements, "/");
        assert "" + ['/'] + body == Written(c);
        SplitPrefix("", body, '/');
        assert ([""] + c.elements)[1..] == c.elements;
      }
    }
  }

  /** Cleaning twice is cleaning once, and what Clean writes reads back as the same elements. */
  lemma {:induction false} CleanIsIdempotent(path: string)
    ensures Clean(Written(Clean(path))) == Clean(path)
  {
    CleanIsNormal(path);
    WrittenWords(Clean(path));
  }

  /** Where a path leads from a directory, following its elements one by one. */
  function Destination(cwd: seq<string>, path: string): seq<string> {
    PushAll(true, if Rooted(path) then [] else cwd, Split(path, '/'))
  }

  /** Following the elements kept so far, then the next one, is following the new list. */
  lemma {:induction false} PushFollows(cwd: seq<string>, stack: seq<string>, word: string)
    requires Normal(false, stack) && '/' !in word
    ensures PushAll(true, cwd, Push(false, stack, word)) == Push(true, PushAll(true, cwd, stack), word)
  {
    if word == "" || word == "." {
    } else if word == UP && stack != [] && stack[|stack| - 1] != UP {
      var last := stack[|stack| - 1];
      var init := stack[..|stack| - 1];
      assert stack == init + [last];
      PushAllConcat(true, cwd, init, [last]);
      assert PushAll(true, cwd, stack) == PushAll(true, cwd, init) + [last];
    } else {
      PushAllConcat(true, cwd, stack, [word]);
      assert [word][1..] == [];
    }
  }

  lemma {:induction false} PushAllFollows(cwd: seq<string>, stack: seq<string>, words: seq<string>)
    requires Normal(false, stack)
    requires forall w :: w in words ==> '/' !in w
    ensures PushAll(true, cwd, PushAll(false, stack, words)) == PushAll(true, PushAll(true, cwd, stack), words)
    decreases |words|
  {
    if words != [] {
      assert words[0] in words;
      PushFollows(cwd, stack, words[0]);
      assert Normal(false, Push(false, stack, words[0]));
      PushAllFollows(cwd, Push(false, stack, words[0]), words[1..]);
    }
  }

  /** Cleaning never changes where a path leads, whatever the working directory. */
  lemma {:induction false} CleanKeepsDestination(cwd: seq<string>, path: string)
    ensures Destination(cwd, Written(Clean(path))) == Destination(cwd, path)
    ensures Destination(cwd, path) == PushAll(true, if Rooted(path) then [] else cwd, Clean(path).elements)
  {
    CleanIsNormal(path);
    CleanIsIdempotent(path);
    WrittenWords(Clean(path));
    Follow(cwd, path);
    Follow(cwd, Written(Clean(path)));
  }

  lemma {:induction false} Follow(cwd: seq<string>, path: string)
    ensures Destination(cwd, path) == PushAll(true, if Rooted(path) then [] else cwd, Clean(path).elements)
  {
    if Rooted(path) {
      CleanIsNormal(path);
      assert [] + Clean(path).elements == Clean(path).elements;
      NormalStays(true, [], Clean(path).elements);
    } else {
      PushAllFollows(cwd, [], Split(path, '/'));
    }
  }

  function CommonLength(a: seq<string>, b: seq<string>): (n: nat)
    ensures n <= |a| && n <= |b| && a[..n] == b[..n]
    ensures n < |a| && n < |b| ==> a[n] != b[n]
  {
    if a == [] || b == [] || a[0] != b[0] then 0
    else
      var rest := CommonLength(a[1..], b[1..]);
      assert a[..rest + 1] == [a[0]] + a[1..][..rest] && b[..rest + 1] == [b[0]] + b[1..][..rest];
      rest + 1
  }

  function Ups(n: nat): seq<string> {
    if n == 0 then [] else [UP] + Ups(n - 1)
  }

  /**
   filepath.Rel: the target's elements after the common ones, behind one ".."
   for each element of the base that is left.  No answer when only one of the
   two is rooted, or when the first element left in the base is "..".
   */
  function Rel(base: string, target: string): Result<string, string> {
    var b, t := Clean(base), Clean(target);
    var n := CommonLength(b.elements, t.elements);
    if b == t then Ok(".")
    else if b.rooted != t.rooted || (n < |b.elements| && b.elements[n] == UP) then
      Err("Rel: can't make " + target + " relative to " + base)
    else Ok(Join(Ups(|b.elements| - n) + t.elements[n..], "/"))
  }

  predicate IsParent(parent: string, path: string) {
    var rel := Rel(parent, path);
    rel.Ok? && !HasPrefix(rel.value, "..")
  }

  /** Whether a written path begins with ".." is decided by its first element. */
  lemma {:induction false} PrefixOfJoin(words: seq<string>)
    requires words != [] && words[0] != ""
    ensures HasPrefix(Join(words, "/"), "..") <==> HasPrefix(words[0], "..")
  {
    var s := Join(words, "/");
    if |words[0]| == 1 && |words| > 1 {
      assert s[1] == '/';
    }
  }

  /** The image lies at or below the parent, element by element. */
  predicate Inside(parent: Cleaned, path: Cleaned) {
    parent.rooted == path.rooted && parent.elements <= path.elements
  }

  /** The first element below the parent, if there is one, begins with "..". */
  predicate DottedNext(parent: Cleaned, path: Cleaned) {
    |parent.elements| < |path.elements| && HasPrefix(path.elements[|parent.elements|], "..")
  }

  /** What isParent decides, in terms of cleaned elements. */
  lemma {:induction false} IsParentIff(parent: string, path: string)
    ensures IsParent(parent, path) <==>
            Inside(Clean(parent), Clean(path)) && !DottedNext(Clean(parent), Clean(path))
  {
    hide Clean, PushAll, CommonLength, Join;
    var b, t := Clean(parent), Clean(path);
    var n := CommonLength(b.elements, t.elements);
    CleanIsNormal(path);
    if b == t {
      assert !HasPrefix(".", "..");
    } else if b.rooted == t.rooted && !(n < |b.elements| && b.elements[n] == UP) {
      var words := Ups(|b.elements| - n) + t.elements[n..];
      if n < |b.elements| {
        assert words[0] == UP;
        PrefixOfJoin(words);
        assert !(b.elements <= t.elements);
      } else {
        assert b.elements == t.elements[..n];
        assert words == t.elements[n..];
        assert words[0] == t.elements[n];
        PrefixOfJoin(words);
      }
    } else if b.rooted == t.rooted {
      assert !(b.elements <= t.elements);
    }
  }

  /** What isParent accepts really lies below: from any working directory, the image's place extends the parent's. */
  lemma {:induction false} ParentContains(cwd: seq<string>, parent: string, path: string)
    requires IsParent(parent, path)
    ensures Destination(cwd, parent) <= Destination(cwd, path)
  {
    IsParentIff(parent, path);
    var b, t := Clean(parent), Clean(path);
    var start := if b.rooted then [] else cwd;
    var rest := t.elements[|b.elements|..];
    CleanIsNormal(path);
    Follow(cwd, parent);
    Follow(cwd, path);
    assert t.elements == b.elements + rest;
    PushAllConcat(true, start, b.elements, rest);
    if rest != [] {
      assert rest[0] == t.elements[|b.elements|];
      assert forall i :: 0 <= i < |rest| ==> rest[i] == t.elements[|b.elements| + i] && Plain(rest[i]);
    }
    PlainStacks(PushAll(true, start, b.elements), rest);
  }

  lemma {:induction false} PlainStacks(stack: seq<string>, words: seq<string>)
    requires forall i :: 0 <= i < |words| ==> Plain(words[i])
    ensures PushAll(true, stack, words) == stack + words
    decreases |words|
  {
    if words == [] {
      assert stack + words == stack;
    } else {
      PlainStacks(stack + [words[0]], words[1..]);
      assert stack + [words[0]] + words[1..] == stack + words;
    }
  }

  lemma {:induction false} RootedDestination(cwd: seq<string>, path: string)
    requires Rooted(path)
    ensures Destination(cwd, path) == Clean(path).elements
  {
    CleanIsNormal(path);
    Follow(cwd, path);
    assert [] + Clean(path).elements == Clean(path).elements;
    NormalStays(true, [], Clean(path).elements);
  }

  /** For rooted paths containment is refused only when the next element begins with "..". */
  lemma {:induction false} RootedContainmentIff(cwd: seq<string>, parent: string, path: string)
    requires Rooted(parent) && Rooted(path)
    ensures IsParent(parent, path) <==>
            Destination(cwd, parent) <= Destination(cwd, path) && !DottedNext(Clean(parent), Clean(path))
  {
    hide IsParent, Destination, DottedNext, PushAll;
    IsParentIff(parent, path);
    RootedDestination(cwd, parent);
    RootedDestination(cwd, path);
  }

  lemma {:induction false} CleanWritten(c: Cleaned)
    requires Normal(c.rooted, c.elements)
    ensures Clean(Written(c)) == c
  {
    WrittenWords(c);
  }

  /** An image inside an allowed directory that isParent still refuses. */
  lemma {:induction false} DottedNameRefused()
    ensures Destination([], "/a") <= Destination([], "/a/..b")
    ensures !IsParent("/a", "/a/..b")
  {
    hide IsParent, Destination, Clean, PushAll;
    var parent, path := Cleaned(true, ["a"]), Cleaned(true, ["a", "..b"]);
    assert Written(parent) == "/a";
    assert Written(path) == "/a/..b" by {
      assert Join(["a", "..b"], "/") == "a" + "/" + Join(["..b"], "/");
    }
    CleanWritten(parent);
    CleanWritten(path);
    RootedContainmentIff([], "/a", "/a/..b");
    RootedDestination([], "/a");
    RootedDestination([], "/a/..b");
  }

  /** isAllowedImagePath. */
  method IsAllowedImagePath(allowedPaths: seq<string>, imagePath: string) returns (ok: bool)
    ensures ok <==> exists i :: 0 <= i < |allowedPaths| && IsParent(allowedPaths[i], imagePath)
  {
    for i := 0 to |allowedPaths|
      invariant forall j :: 0 <= j < i ==> !IsParent(allowedPaths[j], imagePath)
    {
      if IsParent(allowedPaths[i], imagePath) {
        return true;
      }
    }
    ok := false;
  }

  /** Joining a plain name to a rooted directory adds one element and nothing else. */
  lemma {:induction false} JoinPlain(dir: Cleaned, name: string)
    requires dir.rooted && dir.elements != [] && Normal(true, dir.elements) && Plain(name)
    ensures JoinTwo(Written(dir), name) == Written(dir) + "/" + name
  {
    var longer := Cleaned(true, dir.elements + [name]);
    JoinSnoc(dir.elements, name);
    assert "/" + (Join(dir.elements, "/") + "/" + name) == ("/" + Join(dir.elements, "/")) + "/" + name;
    assert Written(longer) == Written(dir) + "/" + name;
    assert Normal(true, longer.elements);
    CleanWritten(longer);
  }

  lemma {:induction false} JoinSnoc(words: seq<string>, name: string)
    requires words != []
    ensures Join(words + [name], "/") == Join(words, "/") + "/" + name
  {
    if |words| > 1 {
      JoinSnoc(words[1..], name);
      assert (words + [name])[1..] == words[1..] + [name];
      assert Join(words + [name], "/") == words[0] + "/" + Join(words[1..] + [name], "/");
      assert words[0] + "/" + (Join(words[1..], "/") + "/" + name)
          == (words[0] + "/" + Join(words[1..], "/")) + "/" + name;
    }
  }

  /** Cleaning, one element at a time: "" and "." add nothing, ".." takes the last element away if it can. */
  lemma {:induction false} CleanStep(dir: string, word: string)
    requires dir != "" && '/' !in word
    ensures var c, n := Clean(dir), |Clean(dir).elements|;
            Clean(dir + "/" + word) ==
              if word == "" || word == "." then c
              else if word != ".." then c.(elements := c.elements + [word])
              else if n > 0 && c.elements[n - 1] != ".." then c.(elements := c.elements[..n - 1])
              else if c.rooted then c
              else c.(elements := c.elements + [".."])
  {
    hide Split;
    var words := Split(dir, '/');
    SplitSnoc(dir, word);
    PushAllConcat(Rooted(dir), [], words, [word]);
    PushAllOne(Rooted(dir), PushAll(Rooted(dir), [], words), word);
    assert Rooted(dir + "/" + word) == Rooted(dir);
  }

  lemma {:induction false} PushAllOne(rooted: bool, stack: seq<string>, word: string)
    ensures PushAll(rooted, stack, [word]) == Push(rooted, stack, word)
  {
    assert [word][1..] == [];
  }

  /** Where cleaning starts from. */
  lemma {:induction false} CleanBase(word: string)
    requires '/' !in word && word != "" && word != "."
    ensures Clean("") == Cleaned(false, []) && Clean("/") == Cleaned(true, [])
    ensures Clean(word) == Cleaned(false, [word])
  {
    SplitPrefix("", "", '/');
    assert "" + ['/'] + "" == "/" && [""] + [""] == ["", ""];
    assert ["", ""][1..] == [""];
    PushAllOne(false, [], "");
    PushAllOne(true, [], "");
    PushAllOne(false, [], word);
    hide Split;
    assert PushAll(true, [], ["", ""]) == [];
  }

  lemma {:induction false} SplitSnoc(dir: string, word: string)
    requires '/' !in word
    ensures Split(dir + "/" + word, '/') == Split(dir, '/') + [word]
  {
    var words := Split(dir, '/');
    JoinSplit(dir, '/');
    JoinSnoc(words, word);
    assert "/" == ['/'];
    SplitJoin(words + [word], '/');
  }
}
