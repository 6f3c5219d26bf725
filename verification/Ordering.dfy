/** Sorting by an ordering relation, and the lexicographic order of strings. */
module Ordering {

  ghost predicate TotalPreorder<T(!new)>(le: (T, T) -> bool) {
    && (forall a, b :: le(a, b) || le(b, a))
    && (forall a, b, c :: le(a, b) && le(b, c) ==> le(a, c))
  }

  predicate Ascending<T>(xs: seq<T>, le: (T, T) -> bool) {
    forall i, j :: 0 <= i < j < |xs| ==> le(xs[i], xs[j])
  }

  function Insert<T>(x: T, xs: seq<T>, le: (T, T) -> bool): (ys: seq<T>)
    ensures multiset(ys) == multiset{x} + multiset(xs) && |ys| == |xs| + 1
  {
    if xs == [] then [x]
    else if le(x, xs[0]) then [x] + xs
    else
      assert xs == [xs[0]] + xs[1..];
      [xs[0]] + Insert(x, xs[1..], le)
  }

  function Sort<T>(xs: seq<T>, le: (T, T) -> bool): (ys: seq<T>)
    ensures multiset(ys) == multiset(xs) && |ys| == |xs|
  {
    if xs == [] then []
    else
      assert xs == [xs[0]] + xs[1..];
      Insert(xs[0], Sort(xs[1..], le), le)
  }

  lemma {:induction false} InsertAscends<T(!new)>(x: T, xs: seq<T>, le: (T, T) -> bool)
    requires TotalPreorder(le) && Ascending(xs, le)
    ensures Ascending(Insert(x, xs, le), le)
  {
    if xs == [] || le(x, xs[0]) {
    } else {
      InsertAscends(x, xs[1..], le);
      var ys := Insert(x, xs[1..], le);
      forall y | y in ys ensures le(xs[0], y) {
        assert y in multiset(ys);
        assert y == x || y in xs[1..];
      }
    }
  }

  lemma {:induction false} SortAscends<T(!new)>(xs: seq<T>, le: (T, T) -> bool)
    requires TotalPreorder(le)
    ensures Ascending(Sort(xs, le), le)
  {
    if xs == [] {
    } else {
      SortAscends(xs[1..], le);
      InsertAscends(xs[0], Sort(xs[1..], le), le);
    }
  }

  lemma SameElements<T>(xs: seq<T>, ys: seq<T>)
    requires multiset(xs) == multiset(ys)
    ensures forall x :: x in xs <==> x in ys
  {
    assert forall x :: x in xs <==> x in multiset(xs);
    assert forall x :: x in ys <==> x in multiset(ys);
  }

  /** Sorting arranges the same elements in ascending order. */
  lemma SortArranges<T(!new)>(le: (T, T) -> bool, xs: seq<T>)
    requires TotalPreorder(le)
    ensures |Sort(xs, le)| == |xs| && Ascending(Sort(xs, le), le)
    ensures forall x :: x in Sort(xs, le) <==> x in xs
  {
    SortAscends(xs, le);
    SameElements(Sort(xs, le), xs);
  }

  lemma FirstIsLeast<T(!new)>(xs: seq<T>, le: (T, T) -> bool, x: T)
    requires TotalPreorder(le) && Ascending(xs, le) && x in xs
    ensures le(xs[0], x)
  {
    var i :| 0 <= i < |xs| && xs[i] == x;
    assert le(x, x);
  }

  lemma RestLacksFirst<T>(xs: seq<T>)
    requires xs != []
    ensures multiset(xs[1..]) == multiset(xs) - multiset{xs[0]}
  {
    assert xs == [xs[0]] + xs[1..];
  }

  /** Two ascending arrangements of the same elements are equal. */
  lemma {:induction false} AscendingIsUnique<T(!new)>(xs: seq<T>, ys: seq<T>, le: (T, T) -> bool)
    requires TotalPreorder(le) && (forall a, b :: le(a, b) && le(b, a) ==> a == b)
    requires Ascending(xs, le) && Ascending(ys, le) && multiset(xs) == multiset(ys)
    ensures xs == ys
  {
    assert |multiset(xs)| == |xs| && |multiset(ys)| == |ys|;
    if xs == [] {
    } else {
      SameElements(xs, ys);
      FirstIsLeast(xs, le, ys[0]);
      FirstIsLeast(ys, le, xs[0]);
      RestLacksFirst(xs);
      RestLacksFirst(ys);
      AscendingIsUnique(xs[1..], ys[1..], le);
      assert xs == [xs[0]] + xs[1..] && ys == [ys[0]] + ys[1..];
    }
  }

  predicate LexLe(a: string, b: string) {
    a == "" || (b != "" && (a[0] < b[0] || (a[0] == b[0] && LexLe(a[1..], b[1..]))))
  }

  lemma {:induction false} LexTotal(a: string, b: string)
    ensures LexLe(a, b) || LexLe(b, a)
  {
    if a == "" || b == "" {
    } else {
      LexTotal(a[1..], b[1..]);
    }
  }

  lemma {:induction false} LexTransitive(a: string, b: string, c: string)
    requires LexLe(a, b) && LexLe(b, c)
    ensures LexLe(a, c)
  {
    if a == "" || b == "" || c == "" {
    } else {
      if a[0] == b[0] == c[0] {
        LexTransitive(a[1..], b[1..], c[1..]);
      }
    }
  }
}
