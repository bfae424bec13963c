/** Sorting by a strict order, and why the algorithm does not matter: two sorted arrangements of the
    same elements are equal whenever the order separates those elements. Also the byte order of
    strings. */
module Sorting {

  ghost predicate StrictOrder<T(!new)>(lt: (T, T) -> bool) {
    && (forall x :: !lt(x, x))
    && (forall x, y, z :: lt(x, y) && lt(y, z) ==> lt(x, z))
  }

  /** The order separates the elements of `s`. */
  ghost predicate Separates<T>(lt: (T, T) -> bool, s: multiset<T>) {
    forall x, y :: x in s && y in s && x != y ==> lt(x, y) || lt(y, x)
  }

  ghost predicate Sorted<T>(lt: (T, T) -> bool, s: seq<T>) {
    forall i, j :: 0 <= i < j < |s| ==> !lt(s[j], s[i])
  }

  ghost predicate StrictlySorted<T>(lt: (T, T) -> bool, s: seq<T>) {
    forall i, j :: 0 <= i < j < |s| ==> lt(s[i], s[j])
  }

  function Insert<T>(lt: (T, T) -> bool, s: seq<T>, x: T): (r: seq<T>)
    ensures multiset(r) == multiset(s) + multiset{x}
  {
    if s == [] || !lt(x, s[|s| - 1]) then s + [x]
    else
      assert s == s[..|s| - 1] + [s[|s| - 1]];
      Insert(lt, s[..|s| - 1], x) + [s[|s| - 1]]
  }

  function Sort<T>(lt: (T, T) -> bool, s: seq<T>): (r: seq<T>)
    ensures multiset(r) == multiset(s)
  {
    if s == [] then [] else
    assert s == s[..|s| - 1] + [s[|s| - 1]];
    Insert(lt, Sort(lt, s[..|s| - 1]), s[|s| - 1])
  }

  /** `lt` behaves on the elements of `s`: its complement is transitive there. */
  ghost predicate Weak<T(!new)>(lt: (T, T) -> bool) {
    && StrictOrder(lt)
    && (forall x, y, z :: lt(x, z) ==> lt(x, y) || lt(y, z))
  }

  lemma {:induction false} InsertSorts<T(!new)>(lt: (T, T) -> bool, s: seq<T>, x: T)
    requires Weak(lt) && Sorted(lt, s)
    ensures Sorted(lt, Insert(lt, s, x))
  {
    if s != [] && lt(x, s[|s| - 1]) {
      var front, last := s[..|s| - 1], s[|s| - 1];
      InsertSorts(lt, front, x);
      var r := Insert(lt, front, x);
      forall i | 0 <= i < |r| ensures !lt(last, r[i]) {
        assert r[i] in multiset(r);
        assert r[i] in multiset(front) || r[i] == x;
        if r[i] in multiset(front) {
          var k :| 0 <= k < |front| && front[k] == r[i];
          assert s[k] == front[k];
        }
      }
    } else if s != [] {
      var last := s[|s| - 1];
      forall i | 0 <= i < |s| ensures !lt(x, s[i]) {
        assert i < |s| - 1 ==> !lt(last, s[i]);
      }
    }
  }

  lemma {:induction false} SortSorts<T(!new)>(lt: (T, T) -> bool, s: seq<T>)
    requires Weak(lt)
    ensures Sorted(lt, Sort(lt, s))
  {
    if s != [] {
      SortSorts(lt, s[..|s| - 1]);
      InsertSorts(lt, Sort(lt, s[..|s| - 1]), s[|s| - 1]);
    }
  }

  /** ONE SORTED ARRANGEMENT. Same elements, both sorted, the order separates them: equal. */
  lemma {:induction false} SortedIsUnique<T(!new)>(lt: (T, T) -> bool, a: seq<T>, b: seq<T>)
    requires StrictOrder(lt) && Separates(lt, multiset(a))
    requires Sorted(lt, a) && Sorted(lt, b) && multiset(a) == multiset(b)
    ensures a == b
    decreases |a|
  {
    hide *;
    assert |multiset(a)| == |multiset(b)|;
    if a != [] {
      LastsAgree(lt, a, b);
      FrontsAgree(a, b);
      SortedFront(lt, a);
      SortedFront(lt, b);
      SubsetSeparates(lt, multiset(a[..|a| - 1]), multiset(a));
      SortedIsUnique(lt, a[..|a| - 1], b[..|b| - 1]);
    }
  }

  /** Without an equal last element, permutations are permutations. */
  lemma FrontsAgree<T>(a: seq<T>, b: seq<T>)
    requires a != [] && |a| == |b| && multiset(a) == multiset(b) && a[|a| - 1] == b[|b| - 1]
    ensures multiset(a[..|a| - 1]) == multiset(b[..|b| - 1]) && multiset(a[..|a| - 1]) <= multiset(a)
    ensures a[..|a| - 1] == b[..|b| - 1] ==> a == b
  {
    WithoutLast(a);
    WithoutLast(b);
    assert a == a[..|a| - 1] + [a[|a| - 1]] && b == b[..|b| - 1] + [b[|b| - 1]];
  }

  lemma LastsAgree<T>(lt: (T, T) -> bool, a: seq<T>, b: seq<T>)
    requires a != [] && b != [] && multiset(a) == multiset(b) && Separates(lt, multiset(a))
    requires Sorted(lt, a) && Sorted(lt, b)
    ensures a[|a| - 1] == b[|b| - 1]
  {
    var x, y := a[|a| - 1], b[|b| - 1];
    assert x in multiset(b) && y in multiset(a);
    LastIsGreatest(lt, a, y);
    LastIsGreatest(lt, b, x);
  }

  lemma SortedFront<T>(lt: (T, T) -> bool, s: seq<T>)
    requires s != [] && Sorted(lt, s)
    ensures Sorted(lt, s[..|s| - 1])
  {
  }

  lemma WithoutLast<T>(s: seq<T>)
    requires s != []
    ensures multiset(s[..|s| - 1]) == multiset(s) - multiset{s[|s| - 1]}
  {
    assert s == s[..|s| - 1] + [s[|s| - 1]];
  }

  /** The last element of `a`, found in a permutation `b` of it. */
  lemma PullOut<T>(a: seq<T>, b: seq<T>) returns (u: seq<T>, v: seq<T>)
    requires a != [] && multiset(a) == multiset(b)
    ensures b == u + [a[|a| - 1]] + v
    ensures multiset(a[..|a| - 1]) == multiset(u + v)
  {
    var x := a[|a| - 1];
    WithoutLast(a);
    assert x in multiset(b);
    var j :| 0 <= j < |b| && b[j] == x;
    u, v := b[..j], b[j + 1..];
    assert b == u + [x] + v;
    assert multiset(b) == multiset(u) + multiset{x} + multiset(v);
  }

  lemma SubsetSeparates<T>(lt: (T, T) -> bool, small: multiset<T>, big: multiset<T>)
    requires small <= big && Separates(lt, big)
    ensures Separates(lt, small)
  {
    forall x, y | x in small && y in small && x != y ensures lt(x, y) || lt(y, x) {
      assert x in big && y in big;
    }
  }

  lemma LastIsGreatest<T>(lt: (T, T) -> bool, s: seq<T>, x: T)
    requires s != [] && Sorted(lt, s) && x in multiset(s)
    ensures x == s[|s| - 1] || !lt(s[|s| - 1], x)
  {
    var i :| 0 <= i < |s| && s[i] == x;
  }

  ghost predicate Distinct<T>(s: seq<T>) {
    forall i, j :: 0 <= i < j < |s| ==> s[i] != s[j]
  }

  /** Sorting distinct elements is strict. */
  lemma SortIsStrict<T(!new)>(lt: (T, T) -> bool, s: seq<T>)
    requires Weak(lt) && Separates(lt, multiset(s)) && Distinct(s)
    ensures StrictlySorted(lt, Sort(lt, s)) && Distinct(Sort(lt, s))
  {
    var r := Sort(lt, s);
    SortSorts(lt, s);
    forall i, j | 0 <= i < j < |r| ensures lt(r[i], r[j]) {
      if r[i] == r[j] {
        TwiceInMultiset(r, i, j);
        OnceInMultiset(s, r[i]);
        assert false;
      }
      assert r[i] in multiset(s) && r[j] in multiset(s);
    }
  }

  lemma TwiceInMultiset<T>(s: seq<T>, i: int, j: int)
    requires 0 <= i < j < |s| && s[i] == s[j]
    ensures multiset(s)[s[i]] >= 2
  {
    assert s == s[..j] + [s[j]] + s[j + 1..];
    assert s[..j][i] == s[i];
    assert s[i] in multiset(s[..j]);
  }

  lemma {:induction false} OnceInMultiset<T>(s: seq<T>, x: T)
    requires Distinct(s)
    ensures multiset(s)[x] <= 1
  {
    if s != [] {
      var n := |s| - 1;
      OnceInMultiset(s[..n], x);
      assert s == s[..n] + [s[n]];
      assert s[n] !in s[..n];
    }
  }

  /** Distinct sequences with the same elements are permutations of each other. */
  lemma SameElements<T>(a: seq<T>, b: seq<T>)
    requires Distinct(a) && Distinct(b) && (forall x :: x in a <==> x in b)
    ensures multiset(a) == multiset(b)
  {
    forall x ensures multiset(a)[x] == multiset(b)[x] {
      OnceInMultiset(a, x);
      OnceInMultiset(b, x);
      assert x in a <==> x in multiset(a);
      assert x in b <==> x in multiset(b);
    }
  }

  lemma StrictIsDistinct<T(!new)>(lt: (T, T) -> bool, s: seq<T>)
    requires StrictOrder(lt) && StrictlySorted(lt, s)
    ensures Distinct(s) && Sorted(lt, s)
  {
    forall i, j | 0 <= i < j < |s| ensures s[i] != s[j] && !lt(s[j], s[i]) {
      assert lt(s[i], s[j]) && !lt(s[i], s[i]);
    }
  }

  lemma SortHasSameElements<T(!new)>(lt: (T, T) -> bool, s: seq<T>)
    ensures forall x :: x in Sort(lt, s) <==> x in s
  {
    forall x ensures x in Sort(lt, s) <==> x in s {
      assert x in Sort(lt, s) <==> x in multiset(Sort(lt, s));
      assert x in s <==> x in multiset(s);
    }
  }

  /** A strict order under which any two different elements compare. */
  ghost predicate TotalOrder<T(!new)>(lt: (T, T) -> bool) {
    Weak(lt) && forall m: multiset<T> :: Separates(lt, m)
  }

  function Elements<T>(s: seq<T>): set<T> { set x | x in s }

  lemma ElementsIgnoreOrder<T>(a: seq<T>, b: seq<T>)
    requires multiset(a) == multiset(b)
    ensures Elements(a) == Elements(b)
  {
    forall x: T ensures x in a <==> x in b {
      assert x in a <==> x in multiset(a);
      assert x in b <==> x in multiset(b);
    }
  }

  /** The elements of a set, or the keys of a map, taken in any order and then sorted; the order they
      came in leaves no trace. */
  method SortedElements<T(==, !new)>(lt: (T, T) -> bool, s: set<T>) returns (sorted: seq<T>)
    requires TotalOrder(lt)
    ensures StrictlySorted(lt, sorted)
    ensures Elements(sorted) == s
  {
    hide Weak, Separates, Sort;
    var left, taken := s, [];
    while left != {}
      invariant left <= s && Distinct(taken)
      invariant forall x :: x in taken <==> x in s - left
      decreases left
    {
      var x :| x in left;
      assert x !in taken;
      left, taken := left - {x}, taken + [x];
    }
    sorted := Sort(lt, taken);
    assert Separates(lt, multiset(taken));
    SortIsStrict(lt, taken);
    SortHasSameElements(lt, taken);
  }

  /** Strictly sorted sequences with the same elements are equal. */
  lemma StrictIsUnique<T(!new)>(lt: (T, T) -> bool, a: seq<T>, b: seq<T>)
    requires TotalOrder(lt)
    requires StrictlySorted(lt, a) && StrictlySorted(lt, b) && Elements(a) == Elements(b)
    ensures a == b
  {
    StrictIsDistinct(lt, a);
    StrictIsDistinct(lt, b);
    forall x ensures x in a <==> x in b { assert x in Elements(a) <==> x in Elements(b); }
    SameElements(a, b);
    assert Separates(lt, multiset(a));
    SortedIsUnique(lt, a, b);
  }

  // ---------------------------------------------------------------------------
  // Counting
  // ---------------------------------------------------------------------------

  function CountIf<T>(p: T -> bool, s: seq<T>): (n: nat)
    ensures n <= |s|
  {
    if s == [] then 0 else CountIf(p, s[..|s| - 1]) + if p(s[|s| - 1]) then 1 else 0
  }

  lemma {:induction false} CountBoth<T>(p: T -> bool, a: seq<T>, b: seq<T>)
    ensures CountIf(p, a + b) == CountIf(p, a) + CountIf(p, b)
    decreases |b|
  {
    if b == [] {
      assert a + b == a;
    } else {
      var n := |b| - 1;
      assert (a + b)[..|a| + n] == a + b[..n];
      CountBoth(p, a, b[..n]);
    }
  }

  /** Counting does not depend on the order. */
  lemma {:induction false} CountIgnoresOrder<T>(p: T -> bool, a: seq<T>, b: seq<T>)
    requires multiset(a) == multiset(b)
    ensures CountIf(p, a) == CountIf(p, b)
    decreases |a|
  {
    assert |multiset(a)| == |multiset(b)|;
    if a != [] {
      var n := |a| - 1;
      var u, v := PullOut(a, b);
      CountIgnoresOrder(p, a[..n], u + v);
      CountBoth(p, u, [a[n]]);
      CountBoth(p, u + [a[n]], v);
      CountBoth(p, u, v);
      CountBoth(p, a[..n], [a[n]]);
      assert a == a[..n] + [a[n]];
    }
  }

  lemma {:induction false} CountAll<T>(p: T -> bool, s: seq<T>)
    requires forall i :: 0 <= i < |s| ==> p(s[i])
    ensures CountIf(p, s) == |s|
  {
    if s != [] { CountAll(p, s[..|s| - 1]); }
  }

  lemma {:induction false} CountNone<T>(p: T -> bool, s: seq<T>)
    requires forall i :: 0 <= i < |s| ==> !p(s[i])
    ensures CountIf(p, s) == 0
  {
    if s != [] { CountNone(p, s[..|s| - 1]); }
  }

  lemma {:induction false} CountGrows<T(!new)>(p: T -> bool, q: T -> bool, s: seq<T>)
    requires forall x :: p(x) ==> q(x)
    ensures CountIf(p, s) <= CountIf(q, s)
  {
    if s != [] { CountGrows(p, q, s[..|s| - 1]); }
  }

  // ---------------------------------------------------------------------------
  // Sums and concatenations over a sequence of records
  // ---------------------------------------------------------------------------

  function SumBy<T>(f: T -> int, s: seq<T>): int {
    if s == [] then 0 else SumBy(f, s[..|s| - 1]) + f(s[|s| - 1])
  }

  lemma {:induction false} SumBoth<T>(f: T -> int, a: seq<T>, b: seq<T>)
    ensures SumBy(f, a + b) == SumBy(f, a) + SumBy(f, b)
    decreases |b|
  {
    if b == [] {
      assert a + b == a;
    } else {
      var n := |b| - 1;
      assert (a + b)[..|a| + n] == a + b[..n];
      SumBoth(f, a, b[..n]);
    }
  }

  lemma {:induction false} SumIgnoresOrder<T>(f: T -> int, a: seq<T>, b: seq<T>)
    requires multiset(a) == multiset(b)
    ensures SumBy(f, a) == SumBy(f, b)
    decreases |a|
  {
    assert |multiset(a)| == |multiset(b)|;
    if a != [] {
      var n := |a| - 1;
      var u, v := PullOut(a, b);
      SumIgnoresOrder(f, a[..n], u + v);
      SumBoth(f, u + [a[n]], v);
      SumBoth(f, u, v);
      assert (u + [a[n]])[..|u|] == u;
    }
  }

  function FlatMap<T, U>(f: T -> seq<U>, s: seq<T>): seq<U> {
    if s == [] then [] else FlatMap(f, s[..|s| - 1]) + f(s[|s| - 1])
  }

  lemma FlatMapStep<T, U>(f: T -> seq<U>, s: seq<T>, i: nat)
    requires i < |s|
    ensures FlatMap(f, s[..i + 1]) == FlatMap(f, s[..i]) + f(s[i])
  {
    assert s[..i + 1][..i] == s[..i];
  }

  lemma {:induction false} FlatMapBoth<T, U>(f: T -> seq<U>, a: seq<T>, b: seq<T>)
    ensures FlatMap(f, a + b) == FlatMap(f, a) + FlatMap(f, b)
    decreases |b|
  {
    if b == [] {
      assert a + b == a;
    } else {
      var n := |b| - 1;
      assert (a + b)[..|a| + n] == a + b[..n];
      FlatMapBoth(f, a, b[..n]);
    }
  }

  /** Concatenations of the same records in another order are permutations of each other. */
  lemma {:induction false} FlatMapIgnoresOrder<T, U>(f: T -> seq<U>, a: seq<T>, b: seq<T>)
    requires multiset(a) == multiset(b)
    ensures multiset(FlatMap(f, a)) == multiset(FlatMap(f, b))
    decreases |a|
  {
    assert |multiset(a)| == |multiset(b)|;
    if a != [] {
      var n := |a| - 1;
      var u, v := PullOut(a, b);
      FlatMapIgnoresOrder(f, a[..n], u + v);
      FlatMapBoth(f, u + [a[n]], v);
      FlatMapBoth(f, u, v);
      assert (u + [a[n]])[..|u|] == u;
    }
  }

  // ---------------------------------------------------------------------------
  // Integers and strings
  // ---------------------------------------------------------------------------

  predicate LessInt(a: int, b: int) { a < b }

  lemma IntOrder()
    ensures TotalOrder(LessInt)
  {
  }

  /** The byte order of strings. */
  predicate LessString(a: string, b: string) {
    b != "" && (a == "" || a[0] < b[0] || (a[0] == b[0] && LessString(a[1..], b[1..])))
  }

  lemma {:induction false} StringTotal(a: string, b: string)
    ensures a == b || LessString(a, b) || LessString(b, a)
    ensures !LessString(a, a)
    ensures !(LessString(a, b) && LessString(b, a))
  {
    if a != "" { StringIrreflexive(a); }
    if a != "" && b != "" && a[0] == b[0] {
      StringTotal(a[1..], b[1..]);
      assert a == [a[0]] + a[1..] && b == [b[0]] + b[1..];
    }
  }

  lemma {:induction false} StringIrreflexive(a: string)
    ensures !LessString(a, a)
  {
    if a != "" { StringIrreflexive(a[1..]); }
  }

  lemma {:induction false} StringTransitive(a: string, b: string, c: string)
    requires LessString(a, b) && LessString(b, c)
    ensures LessString(a, c)
  {
    if a != "" && a[0] == b[0] && b[0] == c[0] {
      StringTransitive(a[1..], b[1..], c[1..]);
    }
  }

  lemma StringOrder()
    ensures TotalOrder(LessString)
  {
    forall x, y ensures x == y || LessString(x, y) || LessString(y, x)
      ensures !LessString(x, x) {
      StringTotal(x, y);
      StringIrreflexive(x);
    }
    forall x, y, z | LessString(x, y) && LessString(y, z) ensures LessString(x, z) {
      StringTransitive(x, y, z);
    }
  }
}
