/** Python's order of strings, and `sorted` as a stable sort by any such order. */
module Ordering {

  /** Strings compared character by character, a prefix coming first. */
  predicate AtMost(a: string, b: string) {
    a == [] || (b != [] && (a[0] < b[0] || (a[0] == b[0] && AtMost(a[1..], b[1..]))))
  }

  lemma {:induction false} AtMostTotal(a: string, b: string)
    ensures AtMost(a, a) && (AtMost(a, b) || AtMost(b, a))
    ensures AtMost(a, b) && AtMost(b, a) ==> a == b
  {
    if a != [] {
      AtMostTotal(a[1..], if b == [] then a[1..] else b[1..]);
      if b != [] && AtMost(a, b) && AtMost(b, a) { assert a == [a[0]] + a[1..] && b == [b[0]] + b[1..]; }
    }
  }

  /** `b` starts with `a`, or where they first differ `a` has the lesser character. */
  lemma {:induction false} AtMostIs(a: string, b: string)
    ensures AtMost(a, b) <==> a <= b || exists i: nat :: LesserAt(a, b, i)
  {
    if a != [] && b != [] {
      if a[0] == b[0] {
        AtMostIs(a[1..], b[1..]);
        TailsCompare(a, b);
      } else {
        assert !(a <= b);
        if a[0] < b[0] { assert LesserAt(a, b, 0); }
        if i: nat :| LesserAt(a, b, i) { assert i > 0 ==> a[..i][0] == b[..i][0]; }
      }
    }
  }

  predicate LesserAt(a: string, b: string, i: nat) { i < |a| && i < |b| && a[..i] == b[..i] && a[i] < b[i] }

  lemma TailsCompare(a: string, b: string)
    requires a != [] && b != [] && a[0] == b[0]
    ensures a[1..] <= b[1..] <==> a <= b
    ensures (exists i: nat :: LesserAt(a[1..], b[1..], i)) <==> exists i: nat :: LesserAt(a, b, i)
  {
    assert a == [a[0]] + a[1..] && b == [b[0]] + b[1..];
    if i: nat :| LesserAt(a[1..], b[1..], i) {
      assert a[..i + 1] == [a[0]] + a[1..][..i] && b[..i + 1] == [b[0]] + b[1..][..i];
      assert LesserAt(a, b, i + 1);
    }
    if i: nat :| LesserAt(a, b, i) {
      assert a[1..][..i - 1] == a[..i][1..] && b[1..][..i - 1] == b[..i][1..];
      assert LesserAt(a[1..], b[1..], i - 1);
    }
  }

  lemma {:induction false} AtMostTransitive(a: string, b: string, c: string)
    requires AtMost(a, b) && AtMost(b, c)
    ensures AtMost(a, c)
  {
    if a != [] && a[0] == b[0] && b[0] == c[0] { AtMostTransitive(a[1..], b[1..], c[1..]); }
  }

  // ------------------------------------------------------------------ sorted

  ghost predicate TotalOrder<T(!new)>(le: (T, T) -> bool) {
    && (forall a, b :: le(a, b) || le(b, a))
    && (forall a, b, c :: le(a, b) && le(b, c) ==> le(a, c))
  }

  ghost predicate SortedBy<T>(le: (T, T) -> bool, xs: seq<T>) {
    forall i, j | 0 <= i < j < |xs| :: le(xs[i], xs[j])
  }

  function Insert<T>(le: (T, T) -> bool, x: T, xs: seq<T>): seq<T> {
    if xs == [] || le(x, xs[0]) then [x] + xs else [xs[0]] + Insert(le, x, xs[1..])
  }

  function Sort<T>(le: (T, T) -> bool, xs: seq<T>): seq<T> {
    if xs == [] then [] else Insert(le, xs[0], Sort(le, xs[1..]))
  }

  lemma {:induction false} InsertPermutes<T>(le: (T, T) -> bool, x: T, xs: seq<T>)
    ensures multiset(Insert(le, x, xs)) == multiset(xs) + multiset{x}
  {
    if !(xs == [] || le(x, xs[0])) {
      InsertPermutes(le, x, xs[1..]);
      assert xs == [xs[0]] + xs[1..];
    }
  }

  lemma {:induction false} SortPermutes<T>(le: (T, T) -> bool, xs: seq<T>)
    ensures multiset(Sort(le, xs)) == multiset(xs)
  {
    if xs != [] {
      SortPermutes(le, xs[1..]);
      InsertPermutes(le, xs[0], Sort(le, xs[1..]));
      assert xs == [xs[0]] + xs[1..];
    }
  }

  lemma SameMembers<T>(a: seq<T>, b: seq<T>)
    requires multiset(a) == multiset(b)
    ensures |a| == |b| && forall x :: x in a <==> x in b
  {
    assert |a| == |multiset(a)| && |b| == |multiset(b)|;
    forall x ensures x in a <==> x in b {
      assert x in a <==> x in multiset(a);
      assert x in b <==> x in multiset(b);
    }
  }

  lemma SortKeeps<T>(le: (T, T) -> bool, xs: seq<T>)
    ensures |Sort(le, xs)| == |xs| && forall x :: x in Sort(le, xs) <==> x in xs
  {
    SortPermutes(le, xs);
    SameMembers(Sort(le, xs), xs);
  }

  lemma {:induction false} InsertSorts<T(!new)>(le: (T, T) -> bool, x: T, xs: seq<T>)
    requires TotalOrder(le) && SortedBy(le, xs)
    ensures SortedBy(le, Insert(le, x, xs))
  {
    if !(xs == [] || le(x, xs[0])) {
      InsertSorts(le, x, xs[1..]);
      var rest := Insert(le, x, xs[1..]);
      forall i | 0 <= i < |rest| ensures le(xs[0], rest[i]) {
        InsertPermutes(le, x, xs[1..]);
        assert rest[i] in multiset(rest);
        assert rest[i] == x || rest[i] in xs[1..];
      }
    }
  }

  lemma {:induction false} SortSorts<T(!new)>(le: (T, T) -> bool, xs: seq<T>)
    requires TotalOrder(le)
    ensures SortedBy(le, Sort(le, xs))
  {
    if xs != [] {
      SortSorts(le, xs[1..]);
      InsertSorts(le, xs[0], Sort(le, xs[1..]));
    }
  }

  lemma {:induction false} SortedStays<T>(le: (T, T) -> bool, xs: seq<T>)
    requires SortedBy(le, xs)
    ensures Sort(le, xs) == xs
  {
    if xs != [] {
      SortedStays(le, xs[1..]);
      assert |xs| > 1 ==> le(xs[0], xs[1]);
      assert xs == [xs[0]] + xs[1..];
    }
  }

  /** No two different elements of `xs` compare equal. */
  ghost predicate NoTies<T>(le: (T, T) -> bool, xs: seq<T>) {
    forall i, j | 0 <= i < |xs| && 0 <= j < |xs| :: le(xs[i], xs[j]) && le(xs[j], xs[i]) ==> xs[i] == xs[j]
  }

  /** Two sorted arrangements of the same elements are the same, when no two elements tie. */
  lemma {:induction false} SortedIsOnly<T(!new)>(le: (T, T) -> bool, a: seq<T>, b: seq<T>)
    requires TotalOrder(le) && SortedBy(le, a) && SortedBy(le, b) && multiset(a) == multiset(b) && NoTies(le, a)
    ensures a == b
  {
    SameMembers(a, b);
    if a != [] {
      SameHead(le, a, b);
      TailOf(a);
      TailOf(b);
      SortedIsOnly(le, a[1..], b[1..]);
    }
  }

  lemma SameHead<T(!new)>(le: (T, T) -> bool, a: seq<T>, b: seq<T>)
    requires TotalOrder(le) && SortedBy(le, a) && SortedBy(le, b) && NoTies(le, a) && a != [] && b != []
    requires a[0] in b && b[0] in a
    ensures a[0] == b[0]
  {
    LeastFirst(le, a, b[0]);
    LeastFirst(le, b, a[0]);
    var j :| 0 <= j < |a| && a[j] == b[0];
    assert le(a[0], a[j]) && le(a[j], a[0]);
  }

  lemma TailOf<T>(a: seq<T>)
    requires a != []
    ensures a == [a[0]] + a[1..] && multiset(a[1..]) == multiset(a) - multiset{a[0]}
  {}

  lemma LeastFirst<T(!new)>(le: (T, T) -> bool, xs: seq<T>, x: T)
    requires SortedBy(le, xs) && TotalOrder(le) && x in xs
    ensures le(xs[0], x)
  {
    var j :| 0 <= j < |xs| && xs[j] == x;
    assert le(x, x);
  }
}
