/** The stable sort that `Array.prototype.sort` performs, sums over sequences, and the order of identifiers. */
module Sorting {

  function Insert<T>(x: T, xs: seq<T>, le: (T, T) -> bool): seq<T> {
    if xs == [] then [x]
    else if le(x, xs[0]) then [x] + xs
    else [xs[0]] + Insert(x, xs[1..], le)
  }

  function Sort<T>(xs: seq<T>, le: (T, T) -> bool): seq<T> {
    if xs == [] then [] else Insert(xs[0], Sort(xs[1..], le), le)
  }

  predicate IsSorted<T>(xs: seq<T>, le: (T, T) -> bool) {
    forall i, j :: 0 <= i < j < |xs| ==> le(xs[i], xs[j])
  }

  ghost predicate IsTotalPreorder<T(!new)>(le: (T, T) -> bool) {
    && (forall a, b :: le(a, b) || le(b, a))
    && (forall a, b, c :: le(a, b) && le(b, c) ==> le(a, c))
  }

  lemma {:induction false} InsertKeeps<T>(x: T, xs: seq<T>, le: (T, T) -> bool)
    ensures multiset(Insert(x, xs, le)) == multiset(xs) + multiset{x}
  {
    if xs != [] {
      assert xs == [xs[0]] + xs[1..];
      if !le(x, xs[0]) { InsertKeeps(x, xs[1..], le); }
    }
  }

  lemma {:induction false} Prepended<T>(x: T, xs: seq<T>, le: (T, T) -> bool)
    requires IsSorted(xs, le) && forall i :: 0 <= i < |xs| ==> le(x, xs[i])
    ensures IsSorted([x] + xs, le)
  {
  }

  lemma {:induction false} InsertSorts<T(!new)>(x: T, xs: seq<T>, le: (T, T) -> bool)
    requires IsTotalPreorder(le) && IsSorted(xs, le)
    ensures IsSorted(Insert(x, xs, le), le)
  {
    if xs != [] {
      if le(x, xs[0]) {
        Prepended(x, xs, le);
      } else {
        var rest := Insert(x, xs[1..], le);
        InsertSorts(x, xs[1..], le);
        InsertKeeps(x, xs[1..], le);
        forall i | 0 <= i < |rest| ensures le(xs[0], rest[i]) {
          assert rest[i] in multiset(xs[1..]) + multiset{x};
          assert rest[i] == x || rest[i] in xs[1..];
        }
        Prepended(xs[0], rest, le);
      }
    }
  }

  /** Sorting is a permutation in order. */
  lemma {:induction false} SortSorts<T(!new)>(xs: seq<T>, le: (T, T) -> bool)
    requires IsTotalPreorder(le)
    ensures IsSorted(Sort(xs, le), le) && multiset(Sort(xs, le)) == multiset(xs) && |Sort(xs, le)| == |xs|
  {
    if xs != [] {
      SortSorts(xs[1..], le);
      InsertSorts(xs[0], Sort(xs[1..], le), le);
      InsertKeeps(xs[0], Sort(xs[1..], le), le);
      assert xs == [xs[0]] + xs[1..];
      assert |Sort(xs, le)| == |multiset(Sort(xs, le))|;
    }
  }

  /** The elements in the order of their first occurrence, each once (`[...new Set(xs)]`). */
  function Distinct<T(==)>(xs: seq<T>): seq<T> {
    if xs == [] then []
    else
      var before, last := Distinct(xs[..|xs| - 1]), xs[|xs| - 1];
      if last in before then before else before + [last]
  }

  // ----- sums -----

  function Sum<T>(xs: seq<T>, w: T -> int): int {
    if xs == [] then 0 else w(xs[0]) + Sum(xs[1..], w)
  }

  lemma {:induction false} SumAppend<T>(xs: seq<T>, ys: seq<T>, w: T -> int)
    ensures Sum(xs + ys, w) == Sum(xs, w) + Sum(ys, w)
  {
    if xs == [] {
      assert xs + ys == ys;
    } else {
      SumAppend(xs[1..], ys, w);
      assert (xs + ys)[1..] == xs[1..] + ys;
    }
  }

  lemma {:induction false} SumOne<T>(xs: seq<T>, x: T, w: T -> int)
    ensures Sum(xs + [x], w) == Sum(xs, w) + w(x)
  {
    SumAppend(xs, [x], w);
    assert [x][1..] == [];
  }

  lemma {:induction false} SumInsert<T>(x: T, xs: seq<T>, le: (T, T) -> bool, w: T -> int)
    ensures Sum(Insert(x, xs, le), w) == w(x) + Sum(xs, w)
  {
    if xs == [] || le(x, xs[0]) {
      assert ([x] + xs)[1..] == xs;
    } else {
      SumInsert(x, xs[1..], le, w);
      assert ([xs[0]] + Insert(x, xs[1..], le))[1..] == Insert(x, xs[1..], le);
    }
  }

  /** A sum does not depend on the order of its terms. */
  lemma {:induction false} SumSort<T>(xs: seq<T>, le: (T, T) -> bool, w: T -> int)
    ensures Sum(Sort(xs, le), w) == Sum(xs, w)
  {
    if xs != [] {
      SumSort(xs[1..], le, w);
      SumInsert(xs[0], Sort(xs[1..], le), le, w);
    }
  }

  // ----- the order of identifiers -----

  /** `localeCompare` taken as the order of code units. */
  predicate IdLe(a: string, b: string) {
    if a == [] then true
    else if b == [] then false
    else a[0] < b[0] || (a[0] == b[0] && IdLe(a[1..], b[1..]))
  }

  lemma {:induction false} IdLeTotal(a: string, b: string)
    ensures IdLe(a, b) || IdLe(b, a)
  {
    if a != [] && b != [] && a[0] == b[0] { IdLeTotal(a[1..], b[1..]); }
  }

  lemma {:induction false} IdLeTransitive(a: string, b: string, c: string)
    requires IdLe(a, b) && IdLe(b, c)
    ensures IdLe(a, c)
  {
    if a != [] && a[0] == b[0] && b[0] == c[0] { IdLeTransitive(a[1..], b[1..], c[1..]); }
  }

  lemma {:induction false} IdLeAntisymmetric(a: string, b: string)
    requires IdLe(a, b) && IdLe(b, a)
    ensures a == b
  {
    if a != [] {
      IdLeAntisymmetric(a[1..], b[1..]);
      assert a == [a[0]] + a[1..] && b == [b[0]] + b[1..];
    }
  }
}
