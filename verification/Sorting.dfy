/** A stable sort, and when its result does not depend on the order of its input. */
module Sorting {
  /** An order that may tie but has no cycles: ties and precedence are transitive. */
  ghost predicate WeakOrder<T(!new)>(less: (T, T) -> bool) {
    && (forall x, y {:trigger less(x, y), less(y, x)} :: !(less(x, y) && less(y, x)))
    && forall x, y, z {:trigger less(y, x), less(z, y)} :: !less(y, x) && !less(z, y) ==> !less(z, x)
  }

  /** Inserts before the first element that comes after `x`, so equal elements keep their order. */
  function Insert<T>(s: seq<T>, x: T, less: (T, T) -> bool): (r: seq<T>)
    ensures |r| == |s| + 1
  {
    if s == [] then [x]
    else
      var n := |s| - 1;
      if less(x, s[n]) then Insert(s[..n], x, less) + [s[n]] else s + [x]
  }

  function Sort<T>(s: seq<T>, less: (T, T) -> bool): (r: seq<T>)
    ensures |r| == |s|
  {
    if s == [] then [] else Insert(Sort(s[..|s| - 1], less), s[|s| - 1], less)
  }

  ghost predicate Ordered<T>(s: seq<T>, less: (T, T) -> bool) {
    forall i, j {:trigger less(s[j], s[i])} :: 0 <= i < j < |s| ==> !less(s[j], s[i])
  }

  lemma {:induction false} InsertKeeps<T>(s: seq<T>, x: T, less: (T, T) -> bool)
    ensures multiset(Insert(s, x, less)) == multiset(s) + multiset{x}
  {
    if s != [] {
      var n := |s| - 1;
      assert s == s[..n] + [s[n]];
      if less(x, s[n]) {
        InsertKeeps(s[..n], x, less);
      }
    }
  }

  lemma {:induction false} SortKeeps<T>(s: seq<T>, less: (T, T) -> bool)
    ensures multiset(Sort(s, less)) == multiset(s)
  {
    if s != [] {
      var n := |s| - 1;
      assert s == s[..n] + [s[n]];
      SortKeeps(s[..n], less);
      InsertKeeps(Sort(s[..n], less), s[n], less);
    }
  }

  lemma {:induction false} InsertOrders<T(!new)>(s: seq<T>, x: T, less: (T, T) -> bool)
    requires WeakOrder(less) && Ordered(s, less)
    ensures Ordered(Insert(s, x, less), less)
  {
    if s != [] {
      var n := |s| - 1;
      var r := Insert(s, x, less);
      PrefixOrdered(s, n, less);
      if less(x, s[n]) {
        var front := Insert(s[..n], x, less);
        InsertOrders(s[..n], x, less);
        InsertKeeps(s[..n], x, less);
        assert !less(s[n], x);
        forall i | 0 <= i < n + 1 ensures !less(s[n], front[i]) {
          assert front[i] in multiset(front);
          if front[i] != x {
            assert front[i] in s[..n];
          }
        }
      } else {
        forall i | 0 <= i < n ensures !less(x, s[i]) {
          assert !less(s[n], s[i]);
        }
      }
    }
  }

  lemma {:induction false} PrefixOrdered<T>(s: seq<T>, n: nat, less: (T, T) -> bool)
    requires Ordered(s, less) && n <= |s|
    ensures Ordered(s[..n], less)
  {
    forall i, j | 0 <= i < j < n ensures !less(s[..n][j], s[..n][i]) {
      assert !less(s[j], s[i]);
    }
  }

  lemma {:induction false} SortOrders<T(!new)>(s: seq<T>, less: (T, T) -> bool)
    requires WeakOrder(less)
    ensures Ordered(Sort(s, less), less)
  {
    if s != [] {
      SortOrders(s[..|s| - 1], less);
      InsertOrders(Sort(s[..|s| - 1], less), s[|s| - 1], less);
    }
  }

  /** No two different elements of `s` tie. */
  ghost predicate NoTies<T(!new)>(s: multiset<T>, less: (T, T) -> bool) {
    forall x, y {:trigger less(x, y)} :: x in s && y in s && x != y ==> less(x, y) || less(y, x)
  }

  /** Two ordered lists of the same elements are equal when no two different elements tie. */
  lemma {:induction false} OrderedIsUnique<T(!new)>(s: seq<T>, t: seq<T>, less: (T, T) -> bool)
    requires WeakOrder(less) && Ordered(s, less) && Ordered(t, less)
    requires multiset(s) == multiset(t) && NoTies(multiset(s), less)
    ensures s == t
  {
    assert |s| == |multiset(s)| == |multiset(t)| == |t|;
    if s != [] {
      var n := |s| - 1;
      LastIsLast(s, t, less);
      Front(s);
      Front(t);
      CancelOne(multiset(s[..n]), multiset(t[..n]), s[n]);
      PrefixOrdered(s, n, less);
      PrefixOrdered(t, n, less);
      OrderedIsUnique(s[..n], t[..n], less);
      assert s == s[..n] + [s[n]] && t == t[..n] + [t[n]];
    }
  }

  lemma {:induction false} Front<T>(s: seq<T>)
    requires s != []
    ensures multiset(s) == multiset(s[..|s| - 1]) + multiset{s[|s| - 1]}
  {
    assert s == s[..|s| - 1] + [s[|s| - 1]];
  }

  lemma {:induction false} LastIsLast<T(!new)>(s: seq<T>, t: seq<T>, less: (T, T) -> bool)
    requires s != [] && |s| == |t| && Ordered(s, less) && Ordered(t, less)
    requires multiset(s) == multiset(t) && NoTies(multiset(s), less)
    ensures s[|s| - 1] == t[|t| - 1]
  {
    var n := |s| - 1;
    var a, b := s[n], t[n];
    assert a in multiset(s) && b in multiset(t);
    assert a != b ==> less(a, b) || less(b, a);
    var i :| 0 <= i <= n && t[i] == a;
    var j :| 0 <= j <= n && s[j] == b;
    assert i < n ==> !less(b, a);
    assert j < n ==> !less(a, b);
  }

  /** Sorting two permutations of one list gives the same result. */
  lemma {:induction false} SortIsInvariant<T(!new)>(s: seq<T>, t: seq<T>, less: (T, T) -> bool)
    requires WeakOrder(less) && multiset(s) == multiset(t) && NoTies(multiset(s), less)
    ensures Sort(s, less) == Sort(t, less)
  {
    SortKeeps(s, less);
    SortKeeps(t, less);
    SortOrders(s, less);
    SortOrders(t, less);
    OrderedIsUnique(Sort(s, less), Sort(t, less), less);
  }

  predicate Distinct<T(==)>(s: seq<T>) {
    forall i, j :: 0 <= i < j < |s| ==> s[i] != s[j]
  }

  lemma {:induction false} CountDistinct<T>(s: seq<T>, x: T)
    requires Distinct(s)
    ensures multiset(s)[x] == if x in s then 1 else 0
  {
    if s != [] {
      var n := |s| - 1;
      assert s == s[..n] + [s[n]];
      CountDistinct(s[..n], x);
    }
  }

  lemma {:induction false} SortElements<T(!new)>(s: seq<T>, less: (T, T) -> bool, x: T)
    ensures x in Sort(s, less) <==> x in s
  {
    SortKeeps(s, less);
    assert x in multiset(Sort(s, less)) <==> x in multiset(s);
  }

  lemma {:induction false} CountTwice<T>(s: seq<T>, i: nat, j: nat)
    requires i < j < |s| && s[i] == s[j]
    ensures multiset(s)[s[i]] >= 2
  {
    assert s[i] in s[..j];
    assert s == s[..j] + [s[j]] + s[j + 1..];
  }

  /** Sorting keeps a list free of repetition. */
  lemma {:induction false} SortDistinct<T>(s: seq<T>, less: (T, T) -> bool)
    requires Distinct(s)
    ensures Distinct(Sort(s, less))
  {
    var t := Sort(s, less);
    SortKeeps(s, less);
    forall i, j | 0 <= i < j < |t| ensures t[i] != t[j] {
      if t[i] == t[j] {
        CountTwice(t, i, j);
        CountDistinct(s, t[i]);
      }
    }
  }

  /** Two ordered lists without repetition and with the same elements are equal when no elements tie. */
  lemma {:induction false} SetIsUnique<T(!new)>(s: seq<T>, t: seq<T>, less: (T, T) -> bool)
    requires WeakOrder(less) && Ordered(s, less) && Ordered(t, less) && Distinct(s) && Distinct(t)
    requires (forall x :: x in s <==> x in t) && NoTies(multiset(s), less)
    ensures s == t
  {
    forall x ensures multiset(s)[x] == multiset(t)[x] {
      CountDistinct(s, x);
      CountDistinct(t, x);
    }
    OrderedIsUnique(s, t, less);
  }

  function Map<T, U>(s: seq<T>, f: T -> U): (r: seq<U>)
    ensures |r| == |s| && forall i :: 0 <= i < |r| ==> r[i] == f(s[i])
  {
    if s == [] then [] else Map(s[..|s| - 1], f) + [f(s[|s| - 1])]
  }

  lemma {:induction false} MapRemove<T, U>(s: seq<T>, f: T -> U, i: nat)
    requires i < |s|
    ensures multiset(Map(s, f)) == multiset(Map(Drop(s, i), f)) + multiset{f(s[i])}
  {
    var a, b := s[..i], s[i + 1..];
    assert s == a + [s[i]] + b;
    MapAppend(a, b, f);
    MapAppend(a, [s[i]], f);
    MapAppend(a + [s[i]], b, f);
    assert Map([s[i]], f) == [f(s[i])];
  }

  lemma {:induction false} MapAppend<T, U>(s: seq<T>, t: seq<T>, f: T -> U)
    ensures Map(s + t, f) == Map(s, f) + Map(t, f)
  {
  }

  function Drop<T>(s: seq<T>, i: nat): (r: seq<T>)
    requires i < |s|
    ensures |r| == |s| - 1
  {
    s[..i] + s[i + 1..]
  }

  lemma {:induction false} DropOne<T>(s: seq<T>, i: nat)
    requires i < |s|
    ensures multiset(s) == multiset(Drop(s, i)) + multiset{s[i]}
  {
    assert s == s[..i] + [s[i]] + s[i + 1..];
  }

  lemma {:induction false} CancelOne<T>(a: multiset<T>, b: multiset<T>, x: T)
    requires a + multiset{x} == b + multiset{x}
    ensures a == b
  {
    assert a == a + multiset{x} - multiset{x};
    assert b == b + multiset{x} - multiset{x};
  }

  lemma {:induction false} FindFirst<T>(s: seq<T>, t: seq<T>) returns (i: nat)
    requires s != [] && multiset(s) == multiset(t)
    ensures i < |t| && t[i] == s[0]
  {
    assert s[0] in multiset(t);
    i :| 0 <= i < |t| && t[i] == s[0];
  }

  lemma {:induction false} Empty<T>(t: seq<T>)
    requires multiset(t) == multiset{}
    ensures t == []
  {
    assert |multiset(t)| == 0;
  }

  /** Mapping permutations gives permutations. */
  lemma {:induction false} MapPermutes<T, U>(s: seq<T>, t: seq<T>, f: T -> U)
    requires multiset(s) == multiset(t)
    ensures multiset(Map(s, f)) == multiset(Map(t, f))
  {
    if s == [] {
      Empty(t);
    } else {
      var i := FindFirst(s, t);
      DropOne(s, 0);
      DropOne(t, i);
      CancelOne(multiset(Drop(s, 0)), multiset(Drop(t, i)), s[0]);
      MapPermutes(Drop(s, 0), Drop(t, i), f);
      MapRemove(s, f, 0);
      MapRemove(t, f, i);
    }
  }
}
