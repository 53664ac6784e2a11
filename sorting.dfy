/**
 * Python's `sorted(xs, key=…)`: a stable sort. It is modelled as an insertion sort that puts
 * each element in front of the first later-sorted element it does not come after, which keeps
 * equal elements in their input order.
 */
module Sorting {
  import opened Seqs

  ghost predicate TotalOn<T>(le: (T, T) -> bool, s: seq<T>)
  {
    forall a, b | a in s && b in s :: le(a, b) || le(b, a)
  }

  ghost predicate TransitiveOn<T>(le: (T, T) -> bool, s: seq<T>)
  {
    forall a, b, c | a in s && b in s && c in s :: le(a, b) && le(b, c) ==> le(a, c)
  }

  ghost predicate AntisymmetricOn<T>(le: (T, T) -> bool, s: seq<T>)
  {
    forall a, b | a in s && b in s :: le(a, b) && le(b, a) ==> a == b
  }

  ghost predicate SortedBy<T>(le: (T, T) -> bool, s: seq<T>)
  {
    forall i, j | 0 <= i < j < |s| :: le(s[i], s[j])
  }

  function InsertBy<T>(x: T, s: seq<T>, le: (T, T) -> bool): (r: seq<T>)
    ensures multiset(r) == multiset(s) + multiset{x}
  {
    if s == [] || le(x, s[0]) then [x] + s
    else
      assert s == [s[0]] + s[1..];
      [s[0]] + InsertBy(x, s[1..], le)
  }

  function SortBy<T>(s: seq<T>, le: (T, T) -> bool): (r: seq<T>)
    ensures multiset(r) == multiset(s)
  {
    if s == [] then []
    else
      assert s == [s[0]] + s[1..];
      InsertBy(s[0], SortBy(s[1..], le), le)
  }

  lemma {:induction false} InsertBySorted<T>(x: T, s: seq<T>, le: (T, T) -> bool)
    requires SortedBy(le, s)
    requires TotalOn(le, [x] + s) && TransitiveOn(le, [x] + s)
    ensures SortedBy(le, InsertBy(x, s, le))
  {
    if s != [] && !le(x, s[0]) {
      assert le(s[0], x);
      var t := s[1..];
      assert forall a | a in [x] + t :: a in [x] + s;
      InsertBySorted(x, t, le);
      var r := InsertBy(x, t, le);
      forall a | a in r ensures le(s[0], a) {
        assert a in multiset(r);
        assert a == x || a in t;
      }
      assert forall j | 0 < j < |[s[0]] + r| :: ([s[0]] + r)[j] in r;
    }
  }

  /** The result is sorted when `le` is a total preorder on the elements. */
  lemma {:induction false} SortBySorted<T>(s: seq<T>, le: (T, T) -> bool)
    requires TotalOn(le, s) && TransitiveOn(le, s)
    ensures SortedBy(le, SortBy(s, le))
  {
    if s != [] {
      var t := s[1..];
      assert forall a | a in t :: a in s;
      SortBySorted(t, le);
      var st := SortBy(t, le);
      assert forall a | a in [s[0]] + st :: a in s by {
        forall a | a in [s[0]] + st ensures a in s {
          if a != s[0] {
            assert a in multiset(st);
          }
        }
      }
      InsertBySorted(s[0], st, le);
    }
  }

  lemma {:induction false} InsertByDistinct<T>(x: T, s: seq<T>, le: (T, T) -> bool)
    requires Distinct(s) && x !in s
    ensures Distinct(InsertBy(x, s, le))
  {
    if s != [] && !le(x, s[0]) {
      InsertByDistinct(x, s[1..], le);
      var r := InsertBy(x, s[1..], le);
      assert s[0] !in r by {
        assert s[0] != x && s[0] !in s[1..];
        assert multiset(r)[s[0]] == 0;
      }
    }
  }

  /** Sorting a sequence without repeats gives one without repeats. */
  lemma {:induction false} SortByDistinct<T>(s: seq<T>, le: (T, T) -> bool)
    requires Distinct(s)
    ensures Distinct(SortBy(s, le))
  {
    if s != [] {
      SortByDistinct(s[1..], le);
      var st := SortBy(s[1..], le);
      assert s[0] !in st by {
        assert s[0] !in s[1..];
        assert multiset(st)[s[0]] == 0;
      }
      InsertByDistinct(s[0], st, le);
    }
  }

  lemma MultisetTail<T>(s: seq<T>)
    requires s != []
    ensures multiset(s[1..]) == multiset(s) - multiset{s[0]}
  {
    assert s == [s[0]] + s[1..];
  }

  /** Sorted arrangements of the same elements start with the same element. */
  lemma SortedSameHead<T>(a: seq<T>, b: seq<T>, le: (T, T) -> bool)
    requires a != [] && b != []
    requires SortedBy(le, a) && SortedBy(le, b)
    requires multiset(a) == multiset(b)
    requires AntisymmetricOn(le, a)
    ensures a[0] == b[0]
  {
    assert a[0] in multiset(b) && b[0] in multiset(a);
    var k :| 0 <= k < |a| && a[k] == b[0];
    var m :| 0 <= m < |b| && b[m] == a[0];
    if k > 0 && m > 0 {
      assert le(a[0], a[k]) && le(b[0], b[m]);
    }
  }

  /** Two sorted arrangements of the same elements coincide when `le` is antisymmetric. */
  lemma {:induction false} SortedUnique<T>(a: seq<T>, b: seq<T>, le: (T, T) -> bool)
    requires SortedBy(le, a) && SortedBy(le, b)
    requires multiset(a) == multiset(b)
    requires AntisymmetricOn(le, a)
    ensures a == b
  {
    assert |a| == |multiset(a)| == |multiset(b)| == |b|;
    if a != [] {
      SortedSameHead(a, b, le);
      MultisetTail(a);
      MultisetTail(b);
      assert forall x | x in a[1..] :: x in a;
      SortedUnique(a[1..], b[1..], le);
      assert a == [a[0]] + a[1..] && b == [b[0]] + b[1..];
    }
  }
}
