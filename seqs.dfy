/** Small facts about sequences used by the ordered dictionary and the sort. */
module Seqs {

  predicate Distinct<T(==)>(s: seq<T>)
  {
    forall i, j | 0 <= i < j < |s| :: s[i] != s[j]
  }

  /** The set of elements of `s` */
  function Elements<T>(s: seq<T>): set<T>
  {
    set x | x in s
  }

  /** A sequence without repeats has as many elements as its set. */
  lemma {:induction false} DistinctCard<T>(s: seq<T>)
    requires Distinct(s)
    ensures |Elements(s)| == |s|
  {
    if s != [] {
      DistinctCard(s[1..]);
      assert Elements(s) == {s[0]} + Elements(s[1..]);
      assert s[0] !in Elements(s[1..]);
    }
  }

  /** `s` with every element of `xs` left out, the others kept in order */
  function FilterOut<T(==)>(s: seq<T>, xs: set<T>): (r: seq<T>)
    ensures forall y | y in r :: y in s && y !in xs
    ensures forall y | y in s && y !in xs :: y in r
    ensures Distinct(s) ==> Distinct(r)
  {
    if s == [] then []
    else if s[0] in xs then FilterOut(s[1..], xs)
    else
      var rest := FilterOut(s[1..], xs);
      assert Distinct(s) ==> Distinct([s[0]] + rest) by {
        if Distinct(s) {
          assert s[0] !in s[1..];
          assert s[0] !in rest;
        }
      }
      [s[0]] + rest
  }

  /** Filtering out elements that do not occur changes nothing. */
  lemma {:induction false} FilterOutAbsent<T>(s: seq<T>, xs: set<T>)
    requires forall y | y in s :: y !in xs
    ensures FilterOut(s, xs) == s
  {
    if s != [] {
      FilterOutAbsent(s[1..], xs);
    }
  }

  lemma ElementsSnoc<T>(s: seq<T>, i: nat)
    requires i < |s|
    ensures Elements(s[..i + 1]) == Elements(s[..i]) + {s[i]}
  {
    assert s[..i + 1] == s[..i] + [s[i]];
  }

  lemma ElementsAll<T>(s: seq<T>)
    ensures Elements(s[..|s|]) == Elements(s)
  {
    assert s[..|s|] == s;
  }

  /** Filtering out one set and then one more element filters out their union. */
  lemma {:induction false} FilterOutTwice<T>(s: seq<T>, xs: set<T>, ys: set<T>)
    ensures FilterOut(FilterOut(s, xs), ys) == FilterOut(s, xs + ys)
  {
    if s != [] {
      FilterOutTwice(s[1..], xs, ys);
    }
  }
}
