/**
  Sorting by a comparison, as Go's `sort` package offers it. The package's algorithm is not modelled:
  an insertion sort stands for it, and a uniqueness lemma says when every correct algorithm, stable or
  not, gives the same result.
*/
module Sorting {
  import opened Text

  type Less<!T> = (T, T) -> bool

  /** No element comes before a smaller one. */
  ghost predicate SortedBy<T>(less: Less<T>, s: seq<T>)
  {
    forall i, j :: 0 <= i < j < |s| ==> !less(s[j], s[i])
  }

  /** A strict order on the elements of `s` under which any two of them compare, or are equal. */
  ghost predicate OrdersAll<T>(less: Less<T>, s: seq<T>)
  {
    && (forall x :: x in s ==> !less(x, x))
    && (forall x, y, z :: x in s && y in s && z in s && less(x, y) && less(y, z) ==> less(x, z))
    && (forall x, y :: x in s && y in s ==> less(x, y) || less(y, x) || x == y)
  }

  /** A strict order in which elements that do not compare count as equal. */
  ghost predicate OrdersWeakly<T>(less: Less<T>, s: seq<T>)
  {
    && (forall x, y :: x in s && y in s && less(x, y) ==> !less(y, x))
    && (forall x, y, z :: x in s && y in s && z in s && !less(y, x) && !less(z, y) ==> !less(z, x))
  }

  function Insert<T>(less: Less<T>, x: T, s: seq<T>): seq<T>
  {
    if s == [] then [x] else if less(s[0], x) then [s[0]] + Insert(less, x, s[1..]) else [x] + s
  }

  function Sort<T>(less: Less<T>, s: seq<T>): seq<T>
  {
    if s == [] then [] else Insert(less, s[0], Sort(less, s[1..]))
  }

  lemma {:induction false} InsertKeeps<T>(less: Less<T>, x: T, s: seq<T>)
    ensures multiset(Insert(less, x, s)) == multiset(s) + multiset{x}
  {
    if s != [] {
      assert s == [s[0]] + s[1..];
      if less(s[0], x) { InsertKeeps(less, x, s[1..]); }
    } else {
      assert multiset([x]) == multiset{x};
    }
  }

  lemma {:induction false} SortKeeps<T>(less: Less<T>, s: seq<T>)
    ensures multiset(Sort(less, s)) == multiset(s)
  {
    if s != [] {
      assert s == [s[0]] + s[1..];
      SortKeeps(less, s[1..]);
      InsertKeeps(less, s[0], Sort(less, s[1..]));
    }
  }

  lemma SameElements<T>(a: seq<T>, b: seq<T>, x: T)
    requires multiset(a) == multiset(b)
    ensures x in a <==> x in b
  {
    assert x in multiset(a) <==> x in a;
    assert x in multiset(b) <==> x in b;
  }

  lemma ConsSorts<T>(less: Less<T>, x: T, s: seq<T>)
    requires SortedBy(less, s) && forall i :: 0 <= i < |s| ==> !less(s[i], x)
    ensures SortedBy(less, [x] + s)
  {
  }

  lemma OrdersWeaklyPart<T>(less: Less<T>, s: seq<T>, part: seq<T>)
    requires OrdersWeakly(less, s) && forall x :: x in part ==> x in s
    ensures OrdersWeakly(less, part)
  {
  }

  /** What is inserted stays behind an element it was found to be behind. */
  lemma InsertStaysBehind<T>(less: Less<T>, x: T, s: seq<T>, y: T)
    requires (forall i :: 0 <= i < |s| ==> !less(s[i], y)) && !less(x, y)
    ensures forall j :: 0 <= j < |Insert(less, x, s)| ==> !less(Insert(less, x, s)[j], y)
  {
    var t := Insert(less, x, s);
    InsertKeeps(less, x, s);
    forall j | 0 <= j < |t| ensures !less(t[j], y) {
      assert t[j] in multiset(t);
      assert t[j] in s || t[j] == x;
    }
  }

  lemma NotBeforeFirst<T>(less: Less<T>, x: T, s: seq<T>)
    requires s != [] && SortedBy(less, s) && OrdersWeakly(less, [x] + s) && !less(s[0], x)
    ensures forall j :: 0 <= j < |s| ==> !less(s[j], x)
  {
    var all := [x] + s;
    forall j | 0 < j < |s| ensures !less(s[j], x) {
      assert all[0] == x && all[1] == s[0] && all[j + 1] == s[j];
      assert !less(s[j], s[0]);
    }
  }

  lemma {:induction false} InsertSorts<T>(less: Less<T>, x: T, s: seq<T>)
    requires SortedBy(less, s) && OrdersWeakly(less, [x] + s)
    ensures SortedBy(less, Insert(less, x, s))
  {
    if s != [] {
      if less(s[0], x) {
        var all := [x] + s;
        assert all[0] == x && all[1] == s[0];
        OrdersWeaklyPart(less, all, [x] + s[1..]);
        InsertSorts(less, x, s[1..]);
        InsertStaysBehind(less, x, s[1..], s[0]);
        ConsSorts(less, s[0], Insert(less, x, s[1..]));
      } else {
        NotBeforeFirst(less, x, s);
        ConsSorts(less, x, s);
      }
    }
  }

  lemma {:induction false} SortSorts<T>(less: Less<T>, s: seq<T>)
    requires OrdersWeakly(less, s)
    ensures SortedBy(less, Sort(less, s)) && multiset(Sort(less, s)) == multiset(s)
  {
    SortKeeps(less, s);
    if s != [] {
      var rest := Sort(less, s[1..]);
      assert forall y :: y in s[1..] ==> y in s;
      SortSorts(less, s[1..]);
      forall y | y in [s[0]] + rest ensures y in s {
        if y in rest { SameElements(rest, s[1..], y); }
      }
      InsertSorts(less, s[0], rest);
    }
  }

  lemma SameDistinctElements<T>(a: seq<T>, b: seq<T>)
    requires Distinct(a) && Distinct(b) && forall x :: x in a <==> x in b
    ensures multiset(a) == multiset(b)
  {
    forall x ensures multiset(a)[x] == multiset(b)[x] {
      OccursOnce(a, x);
      OccursOnce(b, x);
      assert x in multiset(a) <==> x in a;
      assert x in multiset(b) <==> x in b;
    }
  }

  lemma SortedHeadsAgree<T>(less: Less<T>, a: seq<T>, b: seq<T>)
    requires a != [] && b != [] && a[0] in b && b[0] in a
    requires SortedBy(less, a) && SortedBy(less, b) && OrdersAll(less, a)
    ensures a[0] == b[0]
  {
    var i :| 0 <= i < |b| && b[i] == a[0];
    var j :| 0 <= j < |a| && a[j] == b[0];
    assert j > 0 ==> !less(a[j], a[0]);
    assert i > 0 ==> !less(b[i], b[0]);
  }

  lemma TailOf<T>(s: seq<T>)
    requires s != []
    ensures multiset(s[1..]) == multiset(s) - multiset{s[0]}
    ensures forall x :: x in s[1..] ==> x in s
  {
    assert s == [s[0]] + s[1..];
  }

  lemma OrdersPart<T>(less: Less<T>, s: seq<T>, part: seq<T>)
    requires OrdersAll(less, s) && forall x :: x in part ==> x in s
    ensures OrdersAll(less, part)
  {
  }

  lemma {:induction false} OccursOnce<T>(s: seq<T>, x: T)
    requires Distinct(s)
    ensures multiset(s)[x] <= 1
  {
    if s != [] {
      assert s == [s[0]] + s[1..];
      OccursOnce(s[1..], x);
      assert s[0] !in s[1..];
    }
  }

  /** A rearrangement of distinct elements has distinct elements. */
  lemma DistinctStays<T>(a: seq<T>, b: seq<T>)
    requires multiset(a) == multiset(b) && Distinct(a)
    ensures Distinct(b)
  {
    forall i, j | 0 <= i < j < |b| ensures b[i] != b[j] {
      OccursOnce(a, b[j]);
      var front, back := b[..j], b[j..];
      assert b == front + back;
      assert multiset(b) == multiset(front) + multiset(back);
      assert b[i] == front[i] && b[j] == back[0];
      assert b[j] in multiset(back) && b[i] in multiset(front);
    }
  }

  /** Two sorted arrangements begin with the same element, and their tails are arrangements again. */
  lemma DropHeads<T>(less: Less<T>, a: seq<T>, b: seq<T>)
    requires multiset(a) == multiset(b) && a != [] && b != []
    requires SortedBy(less, a) && SortedBy(less, b) && OrdersAll(less, a)
    ensures a[0] == b[0] && multiset(a[1..]) == multiset(b[1..])
    ensures OrdersAll(less, a[1..])
  {
    SameElements(a, b, a[0]);
    SameElements(a, b, b[0]);
    SortedHeadsAgree(less, a, b);
    TailOf(a);
    TailOf(b);
    OrdersPart(less, a, a[1..]);
  }

  lemma SortedTail<T>(less: Less<T>, s: seq<T>)
    requires SortedBy(less, s) && s != []
    ensures SortedBy(less, s[1..])
  {
  }

  lemma SameSize<T>(a: seq<T>, b: seq<T>)
    requires multiset(a) == multiset(b)
    ensures |a| == |b|
  {
    assert |multiset(a)| == |a| && |multiset(b)| == |b|;
  }

  /** A sequence of comparable elements has one sorted arrangement, so the sorting algorithm and its
      stability do not matter. */
  lemma {:induction false} SortedIsUnique<T>(less: Less<T>, a: seq<T>, b: seq<T>)
    requires multiset(a) == multiset(b) && SortedBy(less, a) && SortedBy(less, b) && OrdersAll(less, a)
    ensures a == b
    decreases |a|
  {
    SameSize(a, b);
    if a != [] {
      DropHeads(less, a, b);
      SortedTail(less, a);
      SortedTail(less, b);
      SortedIsUnique(less, a[1..], b[1..]);
      assert a == [a[0]] + a[1..] && b == [b[0]] + b[1..];
    }
  }

  // ----- Go's order on strings

  /** Byte-wise lexicographic order. */
  predicate StringLess(a: string, b: string)
  {
    b != "" && (a == "" || a[0] < b[0] || (a[0] == b[0] && StringLess(a[1..], b[1..])))
  }

  lemma {:induction false} StringLessIsTotal(a: string, b: string)
    ensures StringLess(a, b) || StringLess(b, a) || a == b
    ensures !(StringLess(a, b) && StringLess(b, a))
    ensures !StringLess(a, a)
  {
    if a != "" {
      StringLessIsTotal(a[1..], if b == "" then "" else b[1..]);
      if b != "" && a[0] == b[0] && a[1..] == b[1..] {
        assert a == [a[0]] + a[1..] && b == [b[0]] + b[1..];
      }
    }
  }

  /** `k` is where two strings differ: one ends there, or the first of the two has the smaller byte. */
  ghost predicate LessAt(a: string, b: string, k: nat)
  {
    k <= |a| && k < |b| && a[..k] == b[..k] && (k == |a| || a[k] < b[k])
  }

  lemma {:induction false} StringLessIff(a: string, b: string)
    ensures StringLess(a, b) <==> exists k: nat :: LessAt(a, b, k)
  {
    if b != "" && (a == "" || a[0] < b[0]) {
      assert LessAt(a, b, 0);
    } else if a != "" && b != "" && a[0] == b[0] {
      StringLessIff(a[1..], b[1..]);
      if StringLess(a, b) {
        var k: nat :| LessAt(a[1..], b[1..], k);
        assert a[..k + 1] == [a[0]] + a[1..][..k] && b[..k + 1] == [b[0]] + b[1..][..k];
        assert LessAt(a, b, k + 1);
      }
      if k: nat :| LessAt(a, b, k) {
        assert k > 0;
        assert a[1..][..k - 1] == a[..k][1..] && b[1..][..k - 1] == b[..k][1..];
        assert LessAt(a[1..], b[1..], k - 1);
      }
    }
  }

  lemma {:induction false} StringLessIsTransitive(a: string, b: string, c: string)
    requires StringLess(a, b) && StringLess(b, c)
    ensures StringLess(a, c)
  {
    if a != "" && a[0] == b[0] == c[0] { StringLessIsTransitive(a[1..], b[1..], c[1..]); }
  }

  /** `sort.Strings` */
  function SortStrings(s: seq<string>): seq<string>
  {
    Sort((a, b) => StringLess(a, b), s)
  }

  lemma StringsAreOrdered(s: seq<string>)
    ensures OrdersAll((a, b) => StringLess(a, b), s) && OrdersWeakly((a, b) => StringLess(a, b), s)
  {
    var less := (a, b) => StringLess(a, b);
    forall x, y { StringLessIsTotal(x, y); }
    forall x, y, z | StringLess(x, y) && StringLess(y, z) ensures StringLess(x, z) { StringLessIsTransitive(x, y, z); }
  }

  /** Nowhere in the result does a greater string precede a smaller one. */
  lemma SortStringsOrders(s: seq<string>, i: nat, j: nat)
    requires i < j < |SortStrings(s)|
    ensures SortStrings(s)[i] == SortStrings(s)[j] || exists k: nat :: LessAt(SortStrings(s)[i], SortStrings(s)[j], k)
  {
    SortStringsSorts(s);
    StringLessIsTotal(SortStrings(s)[i], SortStrings(s)[j]);
    StringLessIff(SortStrings(s)[i], SortStrings(s)[j]);
    assert !StringLess(SortStrings(s)[j], SortStrings(s)[i]);
  }

  lemma SortStringsSorts(s: seq<string>)
    ensures SortedBy((a, b) => StringLess(a, b), SortStrings(s)) && multiset(SortStrings(s)) == multiset(s)
  {
    StringsAreOrdered(s);
    SortSorts((a, b) => StringLess(a, b), s);
  }
}
