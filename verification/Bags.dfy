/** Sequences up to reordering, and the stable descending sort by a score. */
module Bags {
  import opened Text

  function Without<T>(s: seq<T>, i: nat): (r: seq<T>)
    requires i < |s|
    ensures |r| == |s| - 1
  {
    s[..i] + s[i + 1..]
  }

  lemma WithoutBag<T>(s: seq<T>, i: nat)
    requires i < |s|
    ensures multiset(s) == multiset(Without(s, i)) + multiset{s[i]}
  {
    assert s == s[..i] + [s[i]] + s[i + 1..];
  }

  lemma WithoutKeeps<T>(s: seq<T>, i: nat, j: nat)
    requires i < |s| && j < |s| && i != j
    ensures s[j] in Without(s, i)
  {
    assert s[j] == Without(s, i)[if j < i then j else j - 1];
  }

  /** In a reordering of a non-empty list, the first element can be found and removed. */
  lemma FindHead<T>(a: seq<T>, b: seq<T>) returns (j: nat)
    requires a != [] && multiset(a) == multiset(b)
    ensures j < |b| && b[j] == a[0] && multiset(a[1..]) == multiset(Without(b, j)) && |a| == |b|
  {
    assert |multiset(a)| == |multiset(b)|;
    assert a[0] in multiset(b);
    j :| 0 <= j < |b| && b[j] == a[0];
    WithoutBag(a, 0);
    WithoutBag(b, j);
    assert Without(a, 0) == a[1..];
    hide Without;
    assert multiset(a[1..]) == multiset(a) - multiset{a[0]};
    assert multiset(Without(b, j)) == multiset(b) - multiset{a[0]};
  }

  /** Where the head of `a` sits in its reordering `b`, and that everything else of `b` is in the tail of `a`. */
  lemma Split<T>(a: seq<T>, b: seq<T>) returns (i: nat)
    requires a != [] && multiset(a) == multiset(b)
    ensures |a| == |b| && i < |b| && b[i] == a[0]
    ensures forall j :: 0 <= j < |b| && j != i ==> b[j] in a[1..]
    ensures |a| > 1 ==> exists j :: 0 <= j < |b| && j != i && b[j] == a[1]
  {
    i := FindHead(a, b);
    var rest := Without(b, i);
    forall j | 0 <= j < |b| && j != i ensures b[j] in a[1..] {
      WithoutKeeps(b, i, j);
      assert b[j] in multiset(rest);
    }
    if |a| > 1 {
      assert a[1..][0] in multiset(rest);
      var k :| 0 <= k < |rest| && rest[k] == a[1];
      assert b[if k < i then k else k + 1] == a[1];
    }
  }

  function Map<T, U>(f: T -> U, s: seq<T>): (r: seq<U>)
    ensures |r| == |s| && forall i :: 0 <= i < |s| ==> r[i] == f(s[i])
  {
    seq(|s|, i requires 0 <= i < |s| => f(s[i]))
  }

  lemma MapWithout<T, U>(f: T -> U, s: seq<T>, i: nat)
    requires i < |s|
    ensures Map(f, Without(s, i)) == Without(Map(f, s), i)
  {
  }

  lemma {:induction false} MapBag<T, U>(f: T -> U, a: seq<T>, b: seq<T>)
    requires multiset(a) == multiset(b)
    ensures multiset(Map(f, a)) == multiset(Map(f, b))
    decreases |a|
  {
    if a == [] {
      assert |multiset(b)| == 0;
    } else {
      var j := FindHead(a, b);
      MapBag(f, a[1..], Without(b, j));
      MapWithout(f, b, j);
      MapWithout(f, a, 0);
      assert Without(a, 0) == a[1..];
      WithoutBag(Map(f, a), 0);
      WithoutBag(Map(f, b), j);
      hide Without, Map;
    }
  }

  ghost predicate Descending(r: seq<real>) { forall i, j :: 0 <= i <= j < |r| ==> r[i] >= r[j] }

  /** There is one way to sort. */
  lemma {:induction false} SortedUnique(a: seq<real>, b: seq<real>)
    requires Descending(a) && Descending(b) && multiset(a) == multiset(b)
    ensures a == b
  {
    if a == [] {
      assert |multiset(b)| == 0;
    } else {
      var j := FindHead(a, b);
      var i := FindHead(b, a);
      assert b[0] >= b[j] && a[0] >= a[i];
      HeadsAgree(a, b, j);
      SortedUnique(a[1..], b[1..]);
      assert a == [a[0]] + a[1..] && b == [b[0]] + b[1..];
    }
  }

  lemma HeadsAgree(a: seq<real>, b: seq<real>, j: nat)
    requires a != [] && b != [] && a[0] == b[0] && multiset(a) == multiset(b)
    ensures multiset(a[1..]) == multiset(b[1..])
  {
    WithoutBag(a, 0);
    WithoutBag(b, 0);
    assert Without(a, 0) == a[1..] && Without(b, 0) == b[1..];
    hide Without;
    assert multiset(a[1..]) == multiset(a) - multiset{a[0]};
    assert multiset(b[1..]) == multiset(b) - multiset{a[0]};
  }

  ghost predicate Distinct<T(!new)>(s: seq<T>) { forall i, j :: 0 <= i < j < |s| ==> s[i] != s[j] }

  lemma {:induction false} DistinctCounts<T(!new)>(s: seq<T>)
    requires Distinct(s)
    ensures forall x :: multiset(s)[x] <= 1
  {
    if s != [] {
      assert s == [s[0]] + s[1..];
      DistinctCounts(s[1..]);
      assert s[0] !in s[1..];
    }
  }

  lemma CountsDistinct<T(!new)>(s: seq<T>)
    requires forall x :: multiset(s)[x] <= 1
    ensures Distinct(s)
  {
    forall i, j | 0 <= i < j < |s| ensures s[i] != s[j] {
      WithoutBag(s, i);
      WithoutKeeps(s, i, j);
      assert s[j] in multiset(Without(s, i));
      assert multiset(s)[s[j]] <= 1;
    }
  }

  /** Reordering keeps elements distinct. */
  lemma DistinctBag<T(!new)>(a: seq<T>, b: seq<T>)
    requires Distinct(a) && multiset(a) == multiset(b)
    ensures Distinct(b)
  {
    DistinctCounts(a);
    CountsDistinct(b);
  }

  // ----- list.sort(key=..., reverse=True) -----

  /** Insert behind every element that scores at least as much: the step of a stable descending sort. */
  function Insert<T>(key: T -> real, ranked: seq<T>, x: T): seq<T> {
    if ranked == [] then [x]
    else if key(ranked[0]) >= key(x) then [ranked[0]] + Insert(key, ranked[1..], x)
    else [x] + ranked
  }

  function SortBy<T>(key: T -> real, xs: seq<T>): seq<T> {
    if xs == [] then [] else Insert(key, SortBy(key, xs[..|xs| - 1]), xs[|xs| - 1])
  }

  ghost predicate Falling<T>(key: T -> real, xs: seq<T>) {
    forall i, j :: 0 <= i <= j < |xs| ==> key(xs[i]) >= key(xs[j])
  }

  lemma {:induction false} InsertBelow<T>(key: T -> real, ranked: seq<T>, x: T, bound: real)
    requires key(x) <= bound && forall i :: 0 <= i < |ranked| ==> key(ranked[i]) <= bound
    ensures forall i :: 0 <= i < |Insert(key, ranked, x)| ==> key(Insert(key, ranked, x)[i]) <= bound
  {
    if ranked != [] && key(ranked[0]) >= key(x) {
      InsertBelow(key, ranked[1..], x, bound);
    }
  }

  lemma FallingCons<T>(key: T -> real, x: T, rest: seq<T>)
    requires Falling(key, rest) && forall i :: 0 <= i < |rest| ==> key(rest[i]) <= key(x)
    ensures Falling(key, [x] + rest)
  {
  }

  lemma {:induction false} InsertSorts<T>(key: T -> real, ranked: seq<T>, x: T)
    requires Falling(key, ranked)
    ensures Falling(key, Insert(key, ranked, x)) && multiset(Insert(key, ranked, x)) == multiset(ranked) + multiset{x}
  {
    if ranked != [] {
      assert ranked == [ranked[0]] + ranked[1..];
      if key(ranked[0]) >= key(x) {
        InsertSorts(key, ranked[1..], x);
        InsertBelow(key, ranked[1..], x, key(ranked[0]));
        FallingCons(key, ranked[0], Insert(key, ranked[1..], x));
      } else {
        FallingCons(key, x, ranked);
      }
    }
  }

  lemma {:induction false} SortSorts<T>(key: T -> real, xs: seq<T>)
    ensures Falling(key, SortBy(key, xs)) && multiset(SortBy(key, xs)) == multiset(xs) && |SortBy(key, xs)| == |xs|
  {
    if xs != [] {
      var n := |xs| - 1;
      SortSorts(key, xs[..n]);
      InsertSorts(key, SortBy(key, xs[..n]), xs[n]);
      assert xs == xs[..n] + [xs[n]];
      assert |multiset(SortBy(key, xs))| == |multiset(xs)|;
    }
  }

  // ----- where the sort puts an element -----

  function AtLeast<T>(key: T -> real, v: real, xs: seq<T>): nat {
    if xs == [] then 0 else AtLeast(key, v, xs[..|xs| - 1]) + if key(xs[|xs| - 1]) >= v then 1 else 0
  }

  /**
   * How many of the first `n` elements come before element `i`: those that score more, and the equal ones in front of
   * it.
   */
  function Ahead<T>(key: T -> real, xs: seq<T>, i: nat, n: nat): nat
    requires i < |xs| && n <= |xs|
  {
    if n == 0 then 0
    else Ahead(key, xs, i, n - 1)
         + if key(xs[n - 1]) > key(xs[i]) || (key(xs[n - 1]) == key(xs[i]) && n - 1 < i) then 1 else 0
  }

  lemma {:induction false} AtLeastCons<T>(key: T -> real, v: real, x: T, xs: seq<T>)
    ensures AtLeast(key, v, [x] + xs) == AtLeast(key, v, xs) + if key(x) >= v then 1 else 0
  {
    if xs == [] {
      assert [x] + xs == [x] && [x][..0] == [];
    } else {
      var n := |xs| - 1;
      AtLeastCons(key, v, x, xs[..n]);
      assert ([x] + xs)[..n + 1] == [x] + xs[..n];
    }
  }

  /** Insertion goes behind the elements that score at least as much, and shifts the others by one. */
  lemma {:induction false} InsertPlaces<T>(key: T -> real, ranked: seq<T>, x: T)
    requires Falling(key, ranked)
    ensures var r, k := Insert(key, ranked, x), AtLeast(key, key(x), ranked);
      && |r| == |ranked| + 1 && k <= |ranked| && r[k] == x
      && (forall p :: 0 <= p < |ranked| ==> r[if key(ranked[p]) >= key(x) then p else p + 1] == ranked[p])
      && (forall p :: 0 <= p < |ranked| ==> (key(ranked[p]) >= key(x) <==> p < k))
  {
    if ranked != [] {
      var first, rest := ranked[0], ranked[1..];
      assert ranked == [first] + rest;
      AtLeastCons(key, key(x), first, rest);
      if key(first) >= key(x) {
        InsertPlaces(key, rest, x);
        hide AtLeast, Falling;
        forall p | 0 < p < |ranked|
          ensures Insert(key, ranked, x)[if key(ranked[p]) >= key(x) then p else p + 1] == ranked[p]
          ensures key(ranked[p]) >= key(x) <==> p < AtLeast(key, key(x), ranked)
        {
          assert ranked[p] == rest[p - 1];
        }
      } else {
        AtLeastBelow(key, key(x), ranked);
        hide AtLeast, Falling;
      }
    }
  }

  lemma {:induction false} AtLeastBelow<T>(key: T -> real, v: real, xs: seq<T>)
    requires forall i :: 0 <= i < |xs| ==> key(xs[i]) < v
    ensures AtLeast(key, v, xs) == 0
  {
    if xs != [] { AtLeastBelow(key, v, xs[..|xs| - 1]); }
  }

  lemma {:induction false} AtLeastInsert<T>(key: T -> real, v: real, ranked: seq<T>, x: T)
    ensures AtLeast(key, v, Insert(key, ranked, x)) == AtLeast(key, v, ranked) + if key(x) >= v then 1 else 0
  {
    if ranked == [] {
      AtLeastCons(key, v, x, []);
      assert [x] + [] == [x];
    } else {
      var first, rest := ranked[0], ranked[1..];
      assert ranked == [first] + rest;
      AtLeastCons(key, v, first, rest);
      if key(first) >= key(x) {
        AtLeastInsert(key, v, rest, x);
        AtLeastCons(key, v, first, Insert(key, rest, x));
      } else {
        AtLeastCons(key, v, x, ranked);
      }
    }
  }

  lemma {:induction false} AtLeastSort<T>(key: T -> real, v: real, xs: seq<T>)
    ensures AtLeast(key, v, SortBy(key, xs)) == AtLeast(key, v, xs)
  {
    if xs != [] {
      var n := |xs| - 1;
      AtLeastSort(key, v, xs[..n]);
      AtLeastInsert(key, v, SortBy(key, xs[..n]), xs[n]);
    }
  }

  /** Counting ahead looks at the first `n` elements and element `i` alone. */
  lemma {:induction false} AheadOfPrefix<T>(key: T -> real, xs: seq<T>, i: nat, n: nat)
    requires n <= i < |xs| || (i < n < |xs|)
    ensures i < n ==> Ahead(key, xs, i, n) == Ahead(key, xs[..n], i, n)
    ensures n <= i ==> Ahead(key, xs, i, n) == AtLeast(key, key(xs[i]), xs[..n])
  {
    if n > 0 {
      if n <= i {
        AheadOfPrefix(key, xs, i, n - 1);
        assert xs[..n][..n - 1] == xs[..n - 1];
      } else {
        AheadSame(key, xs, xs[..n], i, n);
      }
    }
  }

  lemma {:induction false} AheadSame<T>(key: T -> real, xs: seq<T>, ys: seq<T>, i: nat, n: nat)
    requires i < |ys| <= |xs| && n <= |ys| && ys == xs[..|ys|]
    ensures Ahead(key, xs, i, n) == Ahead(key, ys, i, n)
  {
    if n > 0 { AheadSame(key, xs, ys, i, n - 1); }
  }

  lemma AheadLast<T>(key: T -> real, xs: seq<T>, i: nat)
    requires i < |xs|
    ensures var n := |xs| - 1;
      Ahead(key, xs, i, |xs|) == if i == n then AtLeast(key, key(xs[n]), xs[..n])
                                 else Ahead(key, xs[..n], i, n) + if key(xs[n]) > key(xs[i]) then 1 else 0
  {
    AheadOfPrefix(key, xs, i, |xs| - 1);
    hide AtLeast;
  }

  /** What the last insertion of the sort does to the places of the elements before it, and where it puts its own. */
  lemma LastPlaces<T>(key: T -> real, xs: seq<T>)
    requires xs != []
    ensures var n := |xs| - 1; var k := AtLeast(key, key(xs[n]), xs[..n]);
      && |SortBy(key, xs)| == |xs| && |SortBy(key, xs[..n])| == n && k <= n
      && SortBy(key, xs)[k] == xs[n]
      && (forall p :: 0 <= p < n ==>
           var y := SortBy(key, xs[..n])[p];
           (key(y) >= key(xs[n]) <==> p < k) && SortBy(key, xs)[if key(y) >= key(xs[n]) then p else p + 1] == y)
  {
    var n := |xs| - 1;
    var ranked := SortBy(key, xs[..n]);
    assert SortBy(key, xs) == Insert(key, ranked, xs[n]);
    SortSorts(key, xs[..n]);
    hide *;
    InsertPlaces(key, ranked, xs[n]);
    AtLeastSort(key, key(xs[n]), xs[..n]);
  }

  /** The stable sort puts element `i` behind exactly the elements ahead of it. */
  lemma {:induction false} SortPlaces<T>(key: T -> real, xs: seq<T>, i: nat)
    requires i < |xs|
    ensures Ahead(key, xs, i, |xs|) < |SortBy(key, xs)| == |xs| && SortBy(key, xs)[Ahead(key, xs, i, |xs|)] == xs[i]
  {
    hide *;
    var n := |xs| - 1;
    LastPlaces(key, xs);
    AheadLast(key, xs, i);
    if i < n {
      SortPlaces(key, xs[..n], i);
      assert xs[..n][i] == xs[i];
    }
  }

  /** And every place is that of an element. */
  lemma {:induction false} PlaceHasElement<T>(key: T -> real, xs: seq<T>, k: nat) returns (i: nat)
    requires k < |xs|
    ensures i < |xs| && Ahead(key, xs, i, |xs|) == k && |SortBy(key, xs)| == |xs| && SortBy(key, xs)[k] == xs[i]
  {
    hide *;
    var n := |xs| - 1;
    LastPlaces(key, xs);
    AheadLast(key, xs, n);
    var at := AtLeast(key, key(xs[n]), xs[..n]);
    if k == at {
      i := n;
    } else {
      i := PlaceHasElement(key, xs[..n], if k < at then k else k - 1);
      AheadLast(key, xs, i);
      assert xs[..n][i] == xs[i];
    }
    SortPlaces(key, xs, i);
  }
}
