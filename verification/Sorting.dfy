/** Stable sorting, as Python's sorted and list.sort do it, with a strict order given as a function. */
module Sorting {

  /** a before b, b before c transfers through "not before"; two elements never precede each other. */
  ghost predicate StrictWeak<T(!new)>(less: (T, T) -> bool) {
    && (forall a, b :: less(a, b) ==> !less(b, a))
    && (forall a, b, c :: Transfers(less, a, b, c))
  }

  ghost predicate Transfers<T>(less: (T, T) -> bool, a: T, b: T, c: T) {
    !less(b, a) && !less(c, b) ==> !less(c, a)
  }

  ghost predicate Sorted<T>(less: (T, T) -> bool, s: seq<T>) {
    forall i, j :: 0 <= i < j < |s| ==> !less(s[j], s[i])
  }

  /** Puts x behind every element it does not precede. */
  function Insert<T>(less: (T, T) -> bool, s: seq<T>, x: T): (r: seq<T>)
    ensures |r| == |s| + 1
  {
    if s == [] || !less(x, s[|s| - 1]) then s + [x]
    else Insert(less, s[..|s| - 1], x) + [s[|s| - 1]]
  }

  function Sort<T>(less: (T, T) -> bool, s: seq<T>): (r: seq<T>)
    ensures |r| == |s|
  {
    if s == [] then [] else Insert(less, Sort(less, s[..|s| - 1]), s[|s| - 1])
  }

  lemma {:induction false} InsertPermutes<T>(less: (T, T) -> bool, s: seq<T>, x: T)
    ensures multiset(Insert(less, s, x)) == multiset(s) + multiset{x}
  {
    if s != [] && less(x, s[|s| - 1]) {
      InsertPermutes(less, s[..|s| - 1], x);
      assert s == s[..|s| - 1] + [s[|s| - 1]];
    }
  }

  lemma {:induction false} SortPermutes<T>(less: (T, T) -> bool, s: seq<T>)
    ensures multiset(Sort(less, s)) == multiset(s)
  {
    if s != [] {
      SortPermutes(less, s[..|s| - 1]);
      InsertPermutes(less, Sort(less, s[..|s| - 1]), s[|s| - 1]);
      assert s == s[..|s| - 1] + [s[|s| - 1]];
    }
  }

  lemma {:induction false} InsertSorted<T(!new)>(less: (T, T) -> bool, s: seq<T>, x: T)
    requires StrictWeak(less) && Sorted(less, s)
    ensures Sorted(less, Insert(less, s, x))
  {
    if s == [] {
    } else if !less(x, s[|s| - 1]) {
      forall i | 0 <= i < |s| ensures !less(x, s[i]) {
        assert Transfers(less, s[i], s[|s| - 1], x);
      }
    } else {
      var front, last := s[..|s| - 1], s[|s| - 1];
      InsertSorted(less, front, x);
      InsertPermutes(less, front, x);
      forall i | 0 <= i < |s| ensures !less(last, Insert(less, front, x)[i]) {
        var y := Insert(less, front, x)[i];
        assert y in multiset(Insert(less, front, x));
        if y != x { assert y in front; }
      }
    }
  }

  lemma {:induction false} SortSorts<T(!new)>(less: (T, T) -> bool, s: seq<T>)
    requires StrictWeak(less)
    ensures Sorted(less, Sort(less, s)) && multiset(Sort(less, s)) == multiset(s)
  {
    SortPermutes(less, s);
    if s != [] {
      SortSorts(less, s[..|s| - 1]);
      InsertSorted(less, Sort(less, s[..|s| - 1]), s[|s| - 1]);
    }
  }

  /** No two different elements of the list are tied. */
  ghost predicate Untied<T(!new)>(less: (T, T) -> bool, s: seq<T>) {
    forall x, y :: x in s && y in s && x != y ==> less(x, y) || less(y, x)
  }

  lemma SameLast<T(!new)>(less: (T, T) -> bool, a: seq<T>, b: seq<T>, n: nat)
    requires Sorted(less, a) && Sorted(less, b) && |a| == |b| == n + 1 && Untied(less, a)
    requires a[n] in b && b[n] in a
    ensures a[n] == b[n]
  {
    var i :| 0 <= i < |b| && b[i] == a[n];
    var j :| 0 <= j < |a| && a[j] == b[n];
    assert i < n ==> !less(b[n], b[i]);
    assert j < n ==> !less(a[n], a[j]);
  }

  /** The last elements are the same, and the rest is again a pair of such lists. */
  lemma SameFronts<T(!new)>(less: (T, T) -> bool, a: seq<T>, b: seq<T>, n: nat)
    requires Sorted(less, a) && Sorted(less, b) && multiset(a) == multiset(b) && Untied(less, a) && |a| == n + 1
    ensures |b| == n + 1 && a[n] == b[n] && Sorted(less, a[..n]) && Sorted(less, b[..n])
    ensures multiset(a[..n]) == multiset(b[..n]) && Untied(less, a[..n])
  {
    SameMembers(a, b);
    SameLast(less, a, b, n);
    FrontKeeps(less, a, n);
    FrontKeeps(less, b, n);
  }

  lemma FrontKeeps<T(!new)>(less: (T, T) -> bool, a: seq<T>, n: nat)
    requires Sorted(less, a) && |a| == n + 1
    ensures Sorted(less, a[..n]) && multiset(a[..n]) == multiset(a) - multiset{a[n]}
    ensures Untied(less, a) ==> Untied(less, a[..n])
  {
    assert a == a[..n] + [a[n]];
    assert forall y :: y in a[..n] ==> y in a;
  }

  lemma SameMembers<T>(a: seq<T>, b: seq<T>)
    requires multiset(a) == multiset(b)
    ensures |a| == |b| && forall x :: x in a <==> x in b
  {
    assert |multiset(a)| == |a| && |multiset(b)| == |b|;
    assert forall x :: x in a <==> x in multiset(a);
    assert forall x :: x in b <==> x in multiset(b);
  }

  /** Two sorted lists of the same elements, no two of them tied, are the same list. */
  lemma {:induction false} SortedUnique<T(!new)>(less: (T, T) -> bool, a: seq<T>, b: seq<T>)
    requires Sorted(less, a) && Sorted(less, b) && multiset(a) == multiset(b) && Untied(less, a)
    ensures a == b
  {
    SameMembers(a, b);
    if a != [] {
      var n := |a| - 1;
      SameFronts(less, a, b, n);
      SortedUnique(less, a[..n], b[..n]);
      assert a == a[..n] + [a[n]] && b == b[..n] + [b[n]];
    }
  }

  // ----- sorting and mapping -----

  function Map<T, U>(f: T -> U, s: seq<T>): (r: seq<U>)
    ensures |r| == |s|
  {
    seq(|s|, i requires 0 <= i < |s| => f(s[i]))
  }

  /** The order of images is the order of the originals. */
  ghost predicate Reflects<T(!new), U>(f: T -> U, less: (T, T) -> bool, image: (U, U) -> bool) {
    forall a, b :: less(a, b) == image(f(a), f(b))
  }

  lemma {:induction false} InsertMap<T(!new), U>(f: T -> U, less: (T, T) -> bool, image: (U, U) -> bool,
                                     s: seq<T>, x: T)
    requires Reflects(f, less, image)
    ensures Map(f, Insert(less, s, x)) == Insert(image, Map(f, s), f(x))
  {
    if s != [] && less(x, s[|s| - 1]) {
      InsertMap(f, less, image, s[..|s| - 1], x);
      assert Map(f, s)[..|s| - 1] == Map(f, s[..|s| - 1]);
    }
  }

  lemma {:induction false} SortMap<T(!new), U>(f: T -> U, less: (T, T) -> bool, image: (U, U) -> bool, s: seq<T>)
    requires Reflects(f, less, image)
    ensures Map(f, Sort(less, s)) == Sort(image, Map(f, s))
  {
    if s != [] {
      SortMap(f, less, image, s[..|s| - 1]);
      InsertMap(f, less, image, Sort(less, s[..|s| - 1]), s[|s| - 1]);
      assert Map(f, s)[..|s| - 1] == Map(f, s[..|s| - 1]);
    }
  }

  // ----- stability -----

  function Filter<T>(p: T -> bool, s: seq<T>): seq<T> {
    if s == [] then []
    else Filter(p, s[..|s| - 1]) + if p(s[|s| - 1]) then [s[|s| - 1]] else []
  }

  /** Elements that are tied with one another keep their order. */
  lemma {:induction false} SortStable<T(!new)>(less: (T, T) -> bool, s: seq<T>, p: T -> bool)
    requires forall a, b :: p(a) && p(b) ==> !less(a, b)
    ensures Filter(p, Sort(less, s)) == Filter(p, s)
  {
    if s != [] {
      SortStable(less, s[..|s| - 1], p);
      InsertStable(less, Sort(less, s[..|s| - 1]), s[|s| - 1], p);
    }
  }

  lemma {:induction false} InsertStable<T(!new)>(less: (T, T) -> bool, s: seq<T>, x: T, p: T -> bool)
    requires forall a, b :: p(a) && p(b) ==> !less(a, b)
    ensures Filter(p, Insert(less, s, x)) == Filter(p, s) + if p(x) then [x] else []
  {
    if s == [] || !less(x, s[|s| - 1]) {
      assert (s + [x])[..|s|] == s;
    } else {
      var front, last := s[..|s| - 1], s[|s| - 1];
      InsertStable(less, front, x, p);
      assert (Insert(less, front, x) + [last])[..|s|] == Insert(less, front, x);
    }
  }

  // ----- the first element -----

  lemma {:induction false} InsertKeepsHead<T(!new)>(less: (T, T) -> bool, s: seq<T>, x: T)
    requires s != [] && !less(x, s[0])
    ensures Insert(less, s, x)[0] == s[0]
  {
    if less(x, s[|s| - 1]) { InsertKeepsHead(less, s[..|s| - 1], x); }
  }

  lemma {:induction false} InsertInFront<T(!new)>(less: (T, T) -> bool, s: seq<T>, x: T)
    requires forall y :: y in s ==> less(x, y)
    ensures Insert(less, s, x) == [x] + s
  {
    if s != [] {
      InsertInFront(less, s[..|s| - 1], x);
      assert s == s[..|s| - 1] + [s[|s| - 1]];
    }
  }

  /** The element in place i is preceded by none and precedes all the earlier ones. */
  ghost predicate FirstLeast<T>(less: (T, T) -> bool, s: seq<T>, i: nat)
    requires i < |s|
  {
    && (forall j :: 0 <= j < |s| ==> !less(s[j], s[i]))
    && (forall j :: 0 <= j < i ==> less(s[i], s[j]))
  }

  lemma {:induction false} SortHead<T(!new)>(less: (T, T) -> bool, s: seq<T>, i: nat)
    requires i < |s| && FirstLeast(less, s, i)
    ensures Sort(less, s)[0] == s[i]
  {
    var n := |s| - 1;
    if i < n {
      SortHead(less, s[..n], i);
      InsertKeepsHead(less, Sort(less, s[..n]), s[n]);
    } else {
      SortPermutes(less, s[..n]);
      SameMembers(Sort(less, s[..n]), s[..n]);
      InsertInFront(less, Sort(less, s[..n]), s[n]);
    }
  }

  // ----- strings in code point order -----

  predicate Before(a: string, b: string) {
    b != [] && (a == [] || a[0] < b[0] || (a[0] == b[0] && Before(a[1..], b[1..])))
  }

  lemma {:induction false} BeforeTotal(a: string, b: string)
    ensures a == b || Before(a, b) || Before(b, a)
    ensures !(Before(a, b) && Before(b, a)) && !Before(a, a)
  {
    if a != [] && b != [] && a[0] == b[0] {
      BeforeTotal(a[1..], b[1..]);
      assert a == [a[0]] + a[1..] && b == [b[0]] + b[1..];
    }
    if a != [] { BeforeTotal(a[1..], a[1..]); }
  }

  lemma {:induction false} BeforeTransitive(a: string, b: string, c: string)
    requires Before(a, b) && Before(b, c)
    ensures Before(a, c)
  {
    if a != [] && a[0] == b[0] == c[0] { BeforeTransitive(a[1..], b[1..], c[1..]); }
  }
}
