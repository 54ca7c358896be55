/**
 Sequences of rules under the two operations iptables offers the driver:
 appending, and deleting the first rule equal to a given one if there is any.
 */
module Chains {

  function Filter<T(!new)>(p: T -> bool, s: seq<T>): (r: seq<T>)
    ensures forall x :: x in r <==> x in s && p(x)
  {
    if s == [] then []
    else
      assert s == [s[0]] + s[1..];
      if p(s[0]) then [s[0]] + Filter(p, s[1..]) else Filter(p, s[1..])
  }

  /** DeleteIfExists: the first occurrence goes, the others keep their order. */
  function DeleteFirst<T(!new,==)>(s: seq<T>, r: T): seq<T> {
    if s == [] then [] else if s[0] == r then s[1..] else [s[0]] + DeleteFirst(s[1..], r)
  }

  /** One deletion for each entry of rs, in order. */
  function DeleteAll<T(!new,==)>(s: seq<T>, rs: seq<T>): seq<T>
    decreases |rs|
  {
    if rs == [] then s else DeleteAll(DeleteFirst(s, rs[0]), rs[1..])
  }

  lemma {:induction false} FilterConcat<T(!new)>(p: T -> bool, s: seq<T>, t: seq<T>)
    ensures Filter(p, s + t) == Filter(p, s) + Filter(p, t)
  {
    if s == [] {
      assert s + t == t;
    } else {
      FilterConcat(p, s[1..], t);
      assert (s + t)[1..] == s[1..] + t;
    }
  }

  lemma {:induction false} FilterNone<T(!new)>(p: T -> bool, s: seq<T>)
    requires forall x :: x in s ==> !p(x)
    ensures Filter(p, s) == []
  {
    if s != [] {
      assert s[0] in s;
      FilterNone(p, s[1..]);
    }
  }

  lemma {:induction false} FilterEvery<T(!new)>(p: T -> bool, s: seq<T>)
    requires forall x :: x in s ==> p(x)
    ensures Filter(p, s) == s
  {
    if s != [] {
      assert s[0] in s;
      FilterEvery(p, s[1..]);
    }
  }

  /** Filtering by a narrower test after a wider one is filtering by the narrower. */
  lemma {:induction false} FilterFilter<T(!new)>(p: T -> bool, q: T -> bool, s: seq<T>)
    requires forall x :: x in s && p(x) ==> q(x)
    ensures Filter(p, Filter(q, s)) == Filter(p, s)
  {
    if s != [] {
      assert s[0] in s;
      FilterFilter(p, q, s[1..]);
      if q(s[0]) {
        assert Filter(q, s)[1..] == Filter(q, s[1..]);
      }
    }
  }

  lemma {:induction false} FilterDelete<T(!new)>(p: T -> bool, s: seq<T>, r: T)
    ensures Filter(p, DeleteFirst(s, r)) == if p(r) then DeleteFirst(Filter(p, s), r) else Filter(p, s)
  {
    if s != [] && s[0] != r {
      FilterDelete(p, s[1..], r);
      assert ([s[0]] + DeleteFirst(s[1..], r))[1..] == DeleteFirst(s[1..], r);
      if p(s[0]) {
        assert ([s[0]] + Filter(p, s[1..]))[1..] == Filter(p, s[1..]);
      }
    }
  }

  /** Deleting commutes with filtering: each class of rules is deleted from on its own. */
  lemma {:induction false} FilterDeleteAll<T(!new)>(p: T -> bool, s: seq<T>, rs: seq<T>)
    ensures Filter(p, DeleteAll(s, rs)) == DeleteAll(Filter(p, s), Filter(p, rs))
    decreases |rs|
  {
    if rs != [] {
      FilterDelete(p, s, rs[0]);
      FilterDeleteAll(p, DeleteFirst(s, rs[0]), rs[1..]);
      if p(rs[0]) {
        assert Filter(p, rs)[1..] == Filter(p, rs[1..]);
      }
    }
  }

  lemma {:induction false} DeleteFirstMultiset<T(!new)>(s: seq<T>, r: T)
    ensures multiset(DeleteFirst(s, r)) == multiset(s) - multiset{r}
  {
    if s != [] {
      assert s == [s[0]] + s[1..];
      if s[0] != r {
        DeleteFirstMultiset(s[1..], r);
      }
    }
  }

  lemma {:induction false} DeleteAllMultiset<T(!new)>(s: seq<T>, rs: seq<T>)
    ensures multiset(DeleteAll(s, rs)) == multiset(s) - multiset(rs)
    decreases |rs|
  {
    if rs != [] {
      assert rs == [rs[0]] + rs[1..];
      DeleteFirstMultiset(s, rs[0]);
      DeleteAllMultiset(DeleteFirst(s, rs[0]), rs[1..]);
    }
  }

  /** Deleting at least as many copies of everything as there are leaves nothing. */
  lemma {:induction false} DeleteEverything<T(!new)>(s: seq<T>, rs: seq<T>)
    requires multiset(s) <= multiset(rs)
    ensures DeleteAll(s, rs) == []
  {
    DeleteAllMultiset(s, rs);
    assert |multiset(DeleteAll(s, rs))| == 0;
  }

  function NotAmong<T(!new,==)>(rs: seq<T>): T -> bool {
    x => x !in rs
  }

  /** Deleting rules never touches the others, nor their order. */
  lemma {:induction false} OthersKeepOrder<T(!new)>(s: seq<T>, rs: seq<T>, all: seq<T>)
    requires forall r :: r in rs ==> r in all
    ensures Filter(NotAmong(all), DeleteAll(s, rs)) == Filter(NotAmong(all), s)
  {
    FilterDeleteAll(NotAmong(all), s, rs);
    FilterNone(NotAmong(all), rs);
  }

  lemma {:induction false} FilterMultiset<T(!new)>(p: T -> bool, s: seq<T>, x: T)
    ensures multiset(Filter(p, s))[x] == if p(x) then multiset(s)[x] else 0
  {
    if s != [] {
      assert s == [s[0]] + s[1..];
      FilterMultiset(p, s[1..], x);
    }
  }

  /**
   One deletion for each rule of a specification clears the specification's
   rules, leaving the others in order, exactly when the chain holds no more
   copies of any of them than the specification.
   */
  lemma {:induction false} ClearsIff<T(!new)>(s: seq<T>, rs: seq<T>)
    ensures DeleteAll(s, rs) == Filter(NotAmong(rs), s) <==> forall r :: r in rs ==> multiset(s)[r] <= multiset(rs)[r]
  {
    var rest := DeleteAll(s, rs);
    DeleteAllMultiset(s, rs);
    OthersKeepOrder(s, rs, rs);
    if forall r :: r in rs ==> multiset(s)[r] <= multiset(rs)[r] {
      forall x | x in rest ensures NotAmong(rs)(x) {
        assert multiset(rest)[x] > 0;
      }
      FilterEvery(NotAmong(rs), rest);
    }
    if rest == Filter(NotAmong(rs), s) {
      forall r | r in rs ensures multiset(s)[r] <= multiset(rs)[r] {
        assert r !in rest;
        assert multiset(rest)[r] == 0;
      }
    }
  }
}
