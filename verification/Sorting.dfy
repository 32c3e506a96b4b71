/** Strings in code unit order, and `Array.prototype.sort` with a consistent comparison. */
module Sorting {

  /** `a < b` on strings. */
  predicate Less(a: string, b: string) {
    b != "" && (a == "" || a[0] < b[0] || (a[0] == b[0] && Less(a[1..], b[1..])))
  }

  lemma {:induction false} LessIsTotal(a: string, b: string)
    ensures (Less(a, b) || Less(b, a) || a == b) && !(Less(a, b) && Less(b, a))
    ensures a == b ==> !Less(a, b)
  {
    if a != "" && b != "" && a[0] == b[0] {
      LessIsTotal(a[1..], b[1..]);
      assert a == [a[0]] + a[1..] && b == [b[0]] + b[1..];
    }
  }

  lemma {:induction false} LessTransitive(a: string, b: string, c: string)
    requires Less(a, b) && Less(b, c)
    ensures Less(a, c)
  {
    if a != "" && a[0] == b[0] && b[0] == c[0] { LessTransitive(a[1..], b[1..], c[1..]); }
  }

  predicate Links<T>(before: (T, T) -> bool, x: T, y: T, z: T) { before(x, y) && before(y, z) }

  /** A strict order. */
  ghost predicate StrictOrder<T(!new)>(before: (T, T) -> bool) {
    && (forall x, y :: before(x, y) ==> !before(y, x))
    && (forall x, y, z :: Links(before, x, y, z) ==> before(x, z))
  }

  /** Different elements compare. */
  ghost predicate Separates<T>(before: (T, T) -> bool, xs: seq<T>) {
    forall x, y | x in xs && y in xs && x != y :: before(x, y) || before(y, x)
  }

  ghost predicate Sorted<T>(before: (T, T) -> bool, xs: seq<T>) {
    forall i, j | 0 <= i < j < |xs| :: before(xs[i], xs[j]) || xs[i] == xs[j]
  }

  /** Stable: an element goes in front of those it does not compare with. */
  function Insert<T>(before: (T, T) -> bool, x: T, xs: seq<T>): seq<T> {
    if xs == [] || !before(xs[0], x) then [x] + xs else [xs[0]] + Insert(before, x, xs[1..])
  }

  function Sort<T>(before: (T, T) -> bool, xs: seq<T>): seq<T> {
    if xs == [] then [] else Insert(before, xs[0], Sort(before, xs[1..]))
  }

  lemma {:induction false} InsertPermutes<T>(before: (T, T) -> bool, x: T, xs: seq<T>)
    ensures multiset(Insert(before, x, xs)) == multiset(xs) + multiset{x}
  {
    if xs == [] || !before(xs[0], x) {
      assert multiset([x] + xs) == multiset{x} + multiset(xs);
    } else {
      InsertPermutes(before, x, xs[1..]);
      assert xs == [xs[0]] + xs[1..];
      assert multiset([xs[0]] + Insert(before, x, xs[1..])) == multiset{xs[0]} + multiset(Insert(before, x, xs[1..]));
    }
  }

  lemma InsertedFrom<T>(before: (T, T) -> bool, x: T, xs: seq<T>, y: T)
    requires y in Insert(before, x, xs)
    ensures y == x || y in xs
  {
    InsertPermutes(before, x, xs);
    assert y in multiset(Insert(before, x, xs));
    assert y in multiset(xs) || y == x;
  }

  /** In front of a sorted list it goes before. */
  lemma SortedCons<T(!new)>(before: (T, T) -> bool, x: T, xs: seq<T>)
    requires StrictOrder(before) && Sorted(before, xs)
    requires xs != [] ==> before(x, xs[0]) || x == xs[0]
    ensures Sorted(before, [x] + xs)
  {
    forall j | 0 <= j < |xs| ensures before(x, xs[j]) || x == xs[j] {
      if j > 0 { assert x == xs[0] || xs[0] == xs[j] || Links(before, x, xs[0], xs[j]); }
    }
  }

  lemma {:induction false} InsertSorts<T(!new)>(before: (T, T) -> bool, x: T, xs: seq<T>)
    requires StrictOrder(before) && Sorted(before, xs) && forall y | y in xs :: x == y || before(x, y) || before(y, x)
    ensures Sorted(before, Insert(before, x, xs))
  {
    if xs == [] || !before(xs[0], x) {
      SortedCons(before, x, xs);
    } else {
      var rest := Insert(before, x, xs[1..]);
      assert forall y | y in xs[1..] :: y in xs;
      InsertSorts(before, x, xs[1..]);
      forall j | 0 <= j < |rest| ensures before(xs[0], rest[j]) || xs[0] == rest[j] {
        InsertedFrom(before, x, xs[1..], rest[j]);
        if rest[j] in xs[1..] {
          var k :| 0 <= k < |xs[1..]| && xs[1..][k] == rest[j];
          assert xs[k + 1] == rest[j];
        }
      }
    }
  }

  lemma {:induction false} SortPermutes<T>(before: (T, T) -> bool, xs: seq<T>)
    ensures multiset(Sort(before, xs)) == multiset(xs) && |Sort(before, xs)| == |xs|
  {
    if xs != [] {
      SortPermutes(before, xs[1..]);
      InsertPermutes(before, xs[0], Sort(before, xs[1..]));
      assert xs == [xs[0]] + xs[1..];
    }
    assert |multiset(Sort(before, xs))| == |multiset(xs)|;
  }

  lemma SortedFrom<T>(before: (T, T) -> bool, xs: seq<T>, y: T)
    ensures y in Sort(before, xs) <==> y in xs
  {
    SortPermutes(before, xs);
    assert y in multiset(Sort(before, xs)) <==> y in multiset(xs);
  }

  /** Sorting permutes into order. */
  lemma {:induction false} SortSorts<T(!new)>(before: (T, T) -> bool, xs: seq<T>)
    requires StrictOrder(before) && Separates(before, xs)
    ensures multiset(Sort(before, xs)) == multiset(xs) && Sorted(before, Sort(before, xs))
  {
    SortPermutes(before, xs);
    if xs != [] {
      assert forall y | y in xs[1..] :: y in xs;
      SortSorts(before, xs[1..]);
      forall y | y in Sort(before, xs[1..]) ensures xs[0] == y || before(xs[0], y) || before(y, xs[0]) {
        SortedFrom(before, xs[1..], y);
        assert xs[0] in xs && y in xs;
      }
      InsertSorts(before, xs[0], Sort(before, xs[1..]));
    }
  }

  lemma HeadsAgree<T(!new)>(before: (T, T) -> bool, xs: seq<T>, ys: seq<T>)
    requires StrictOrder(before) && Sorted(before, xs) && Sorted(before, ys) && multiset(xs) == multiset(ys)
    requires xs != [] && ys != []
    ensures xs[0] == ys[0]
  {
    assert xs[0] in multiset(ys) && ys[0] in multiset(xs);
    var i :| 0 <= i < |ys| && ys[i] == xs[0];
    var j :| 0 <= j < |xs| && xs[j] == ys[0];
  }

  lemma TailMultiset<T>(xs: seq<T>)
    requires xs != []
    ensures multiset(xs[1..]) == multiset(xs) - multiset{xs[0]}
  {
    assert xs == [xs[0]] + xs[1..];
  }

  lemma SameLength<T>(xs: seq<T>, ys: seq<T>)
    requires multiset(xs) == multiset(ys)
    ensures |xs| == |ys|
  {
    assert |multiset(xs)| == |multiset(ys)|;
  }

  /** Only one order is sorted. */
  lemma {:induction false} SortedIsUnique<T(!new)>(before: (T, T) -> bool, xs: seq<T>, ys: seq<T>)
    requires StrictOrder(before) && Sorted(before, xs) && Sorted(before, ys) && multiset(xs) == multiset(ys)
    ensures xs == ys
  {
    SameLength(xs, ys);
    if xs != [] {
      HeadsAgree(before, xs, ys);
      TailMultiset(xs);
      TailMultiset(ys);
      SortedIsUnique(before, xs[1..], ys[1..]);
      SameHeadAndTail(xs, ys);
    }
  }

  lemma SameHeadAndTail<T>(xs: seq<T>, ys: seq<T>)
    requires xs != [] && ys != [] && xs[0] == ys[0] && xs[1..] == ys[1..]
    ensures xs == ys
  {
    assert xs == [xs[0]] + xs[1..] && ys == [ys[0]] + ys[1..];
  }

  /** The order a table is read in does not show after sorting. */
  lemma SortForgetsOrder<T(!new)>(before: (T, T) -> bool, xs: seq<T>, ys: seq<T>)
    requires StrictOrder(before) && Separates(before, xs) && multiset(xs) == multiset(ys)
    ensures Sort(before, xs) == Sort(before, ys)
  {
    forall y | y in ys ensures y in xs { assert y in multiset(ys); }
    SortSorts(before, xs);
    SortSorts(before, ys);
    SortedIsUnique(before, Sort(before, xs), Sort(before, ys));
  }
}
