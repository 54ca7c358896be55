/**
 Appending rules to a chain and deleting as many again: what that does to a
 chain that held some of them before.
 */
module Layers {
  import opened Chains

  /** The sequence without the first e[x] occurrences of each x. */
  function Drop<T(!new)>(s: seq<T>, e: multiset<T>): seq<T> {
    if s == [] then []
    else if s[0] in e then Drop(s[1..], e - multiset{s[0]})
    else [s[0]] + Drop(s[1..], e)
  }

  lemma {:induction false} DropDeleted<T(!new)>(s: seq<T>, r: T, e: multiset<T>)
    ensures Drop(DeleteFirst(s, r), e) == Drop(s, e + multiset{r})
  {
    if s != [] {
      var rest := DeleteFirst(s[1..], r);
      if s[0] == r {
        assert e + multiset{r} - multiset{r} == e;
      } else if s[0] in e {
        DropDeleted(s[1..], r, e - multiset{s[0]});
        assert e + multiset{r} - multiset{s[0]} == e - multiset{s[0]} + multiset{r};
        assert ([s[0]] + rest)[1..] == rest;
      } else {
        DropDeleted(s[1..], r, e);
        assert ([s[0]] + rest)[1..] == rest;
      }
    }
  }

  /** Deleting rules one by one drops their first occurrences, in whatever order they are listed. */
  lemma {:induction false} DeleteAllIsDrop<T(!new)>(s: seq<T>, rs: seq<T>)
    ensures DeleteAll(s, rs) == Drop(s, multiset(rs))
    decreases |rs|
  {
    if rs == [] {
      DropNothing(s);
    } else {
      DeleteAllIsDrop(DeleteFirst(s, rs[0]), rs[1..]);
      DropDeleted(s, rs[0], multiset(rs[1..]));
      assert rs == [rs[0]] + rs[1..];
      assert multiset(rs[1..]) + multiset{rs[0]} == multiset(rs);
    }
  }

  lemma {:induction false} DropNothing<T(!new)>(s: seq<T>)
    ensures Drop(s, multiset{}) == s
  {
    if s != [] {
      DropNothing(s[1..]);
    }
  }

  /** Only as many occurrences count as there are. */
  lemma {:induction false} DropCapped<T(!new)>(s: seq<T>, d: multiset<T>, e: multiset<T>)
    requires d * multiset(s) == e * multiset(s)
    ensures Drop(s, d) == Drop(s, e)
  {
    if s != [] {
      var h, t := s[0], s[1..];
      assert s == [h] + t;
      forall x ensures (d * multiset(s))[x] == (e * multiset(s))[x] {}
      if h in d {
        assert (e * multiset(s))[h] > 0;
        forall x ensures ((d - multiset{h}) * multiset(t))[x] == ((e - multiset{h}) * multiset(t))[x] {
          assert (d * multiset(s))[x] == (e * multiset(s))[x];
        }
        DropCapped(t, d - multiset{h}, e - multiset{h});
      } else {
        assert (d * multiset(s))[h] == 0;
        forall x ensures (d * multiset(t))[x] == (e * multiset(t))[x] {
          assert (d * multiset(s))[x] == (e * multiset(s))[x];
        }
        DropCapped(t, d, e);
      }
    }
  }

  lemma {:induction false} DropConcat<T(!new)>(s: seq<T>, t: seq<T>, e: multiset<T>)
    ensures Drop(s + t, e) == Drop(s, e) + Drop(t, e - multiset(s))
  {
    if s == [] {
      assert s + t == t && e - multiset(s) == e;
    } else {
      var h, rest := s[0], s[1..];
      assert s == [h] + rest && (s + t)[1..] == rest + t;
      if h in e {
        DropConcat(rest, t, e - multiset{h});
        assert e - multiset{h} - multiset(rest) == e - multiset(s);
      } else {
        DropConcat(rest, t, e);
        assert e - multiset(rest) == e - multiset(s);
      }
    }
  }

  lemma {:induction false} DropMultiset<T(!new)>(s: seq<T>, e: multiset<T>)
    ensures multiset(Drop(s, e)) == multiset(s) - e
  {
    if s != [] {
      var h, t := s[0], s[1..];
      assert s == [h] + t;
      if h in e {
        DropMultiset(t, e - multiset{h});
      } else {
        DropMultiset(t, e);
      }
    }
  }

  /** The rules of a list that a chain holds, each as often as it does at most, in the list's order: its last copies. */
  function Shared<T(!new,==)>(rs: seq<T>, s: seq<T>): seq<T> {
    Drop(rs, multiset(rs) - multiset(s))
  }

  lemma {:induction false} SharedMultiset<T(!new)>(rs: seq<T>, s: seq<T>)
    ensures multiset(Shared(rs, s)) == multiset(rs) * multiset(s)
    ensures |Shared(rs, s)| <= |s|
  {
    DropMultiset(rs, multiset(rs) - multiset(s));
    assert multiset(Shared(rs, s)) <= multiset(s);
    assert |multiset(Shared(rs, s))| <= |multiset(s)|;
  }

  /**
   A chain that ends in the rules it shares with the list, in the list's order,
   and before them in those it shares with these once more, and so on until
   there are none.
   */
  predicate Layered<T(!new,==)>(s: seq<T>, rs: seq<T>)
    decreases |s|
  {
    var shared := Shared(rs, s);
    || shared == []
    || (|shared| <= |s|
        && s[|s| - |shared|..] == shared
        && Layered(s[..|s| - |shared|], shared))
  }

  /** Appending a list and deleting all of it again leaves a chain as it was exactly when the chain is layered so. */
  lemma {:induction false} AppendDeleteIff<T(!new)>(s: seq<T>, rs: seq<T>)
    ensures DeleteAll(s + rs, rs) == s <==> Layered(s, rs)
    decreases |s|
  {
    var shared := Shared(rs, s);
    DeleteAllIsDrop(s + rs, rs);
    DropConcat(s, rs, multiset(rs));
    SharedMultiset(rs, s);
    assert DeleteAll(s + rs, rs) == Drop(s, multiset(rs)) + shared;
    assert multiset(rs) * multiset(s) == multiset(shared) * multiset(s);
    DropCapped(s, multiset(rs), multiset(shared));
    if shared == [] {
      DropNothing(s);
    } else {
      var n := |s| - |shared|;
      if s[n..] == shared {
        assert s == s[..n] + shared;
        DeleteAllIsDrop(s[..n] + shared, shared);
        AppendDeleteIff(s[..n], shared);
      }
      EndsIn(s, Drop(s, multiset(shared)), shared);
    }
  }

  lemma {:induction false} EndsIn<T(!new)>(s: seq<T>, front: seq<T>, back: seq<T>)
    requires |back| <= |s|
    ensures front + back == s <==> s[|s| - |back|..] == back && s[..|s| - |back|] == front
  {
    var n := |s| - |back|;
    assert s == s[..n] + s[n..];
    if front + back == s {
      assert |front| == n && s[..n] == front && s[n..] == back;
    }
  }

  lemma {:induction false} NotInFront<T(!new)>(s: seq<T>, rs: seq<T>)
    requires forall r :: r in rs ==> r !in s
    ensures Shared(rs, s) == [] && Filter(NotAmong(rs), s) == s
  {
    SharedMultiset(rs, s);
    assert multiset(rs) * multiset(s) == multiset{} by {
      assert forall x :: x in multiset(rs) * multiset(s) ==> x in rs && x in s;
    }
    assert |multiset(Shared(rs, s))| == 0;
    FilterEvery(NotAmong(rs), s);
  }

  /** When the chain holds each of the rules once at most, it must end in those it holds, in the list's order. */
  lemma {:induction false} LayeredOnceIff<T(!new)>(s: seq<T>, rs: seq<T>)
    requires forall r :: r in rs ==> multiset(s)[r] <= 1
    ensures Layered(s, rs) <==> s == Filter(NotAmong(rs), s) + Shared(rs, s)
  {
    var shared := Shared(rs, s);
    SharedMultiset(rs, s);
    if shared == [] {
      forall r | r in rs ensures r !in s {
        assert (multiset(rs) * multiset(s))[r] == 0;
      }
      NotInFront(s, rs);
    } else {
      var n := |s| - |shared|;
      EndsIn(s, Filter(NotAmong(rs), s), shared);
      if s[n..] == shared {
        var front := s[..n];
        assert s == front + shared;
        forall r | r in rs ensures r !in front {
          assert multiset(s)[r] == multiset(front)[r] + multiset(shared)[r];
          assert multiset(shared)[r] == (multiset(rs) * multiset(s))[r];
        }
        NotInFront(front, rs);
        forall r | r in shared ensures r in rs && r !in front {
          assert r in multiset(shared);
        }
        NotInFront(front, shared);
        FilterConcat(NotAmong(rs), front, shared);
        FilterNone(NotAmong(rs), shared);
      }
    }
  }

  /** Once the rule occurs, nothing else follows. */
  ghost predicate OnlyFollowsItself<T(!new)>(s: seq<T>, r: T) {
    forall i, j :: 0 <= i <= j < |s| && s[i] == r ==> s[j] == r
  }

  lemma {:induction false} FollowsSnoc<T(!new)>(s: seq<T>, r: T)
    requires r in s
    ensures OnlyFollowsItself(s, r) <==> s[|s| - 1] == r && OnlyFollowsItself(s[..|s| - 1], r)
  {
    var n := |s| - 1;
    var k :| 0 <= k <= n && s[k] == r;
    if OnlyFollowsItself(s, r) {
      assert s[n] == r;
      forall i, j | 0 <= i <= j < n && s[..n][i] == r ensures s[..n][j] == r {
        assert s[i] == r;
      }
    }
    if s[n] == r && OnlyFollowsItself(s[..n], r) {
      forall i, j | 0 <= i <= j < |s| && s[i] == r ensures s[j] == r {
        if j < n {
          assert s[..n][i] == r && s[..n][j] == s[j];
        }
      }
    }
  }

  /** For one rule the chain is layered exactly then. */
  lemma {:induction false} LayeredRuleIff<T(!new)>(s: seq<T>, r: T)
    ensures Layered(s, [r]) <==> OnlyFollowsItself(s, r)
    decreases |s|
  {
    hide OnlyFollowsItself, Drop;
    if r !in s {
      NotInFront(s, [r]);
      assert OnlyFollowsItself(s, r) by { Unfollowed(s, r); }
    } else {
      FollowsSnoc(s, r);
      SharedOne(s, r);
      var n := |s| - 1;
      assert s[n..] == [s[n]];
      LayeredRuleIff(s[..n], r);
    }
  }

  lemma {:induction false} Unfollowed<T(!new)>(s: seq<T>, r: T)
    requires r !in s
    ensures OnlyFollowsItself(s, r)
  {
  }

  lemma {:induction false} SharedOne<T(!new)>(s: seq<T>, r: T)
    requires r in s
    ensures Shared([r], s) == [r]
  {
    assert multiset([r]) - multiset(s) == multiset{};
    DropNothing([r]);
  }
}
