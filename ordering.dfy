/**
 * Orderings used by the album rater: string comparison (standing in for
 * `localeCompare`) and the stable sort `Array.prototype.sort` performs with a
 * comparator, with the facts the listings rely on: the result is a
 * permutation, it is sorted when the comparator is a total preorder on the
 * elements, elements that compare equal keep their order, and a sorted
 * permutation is unique when the comparator separates all elements.
 */
module Ordering {

  /**
   * `a.localeCompare(b)`, approximated by code-point lexicographic order
   * (collation rules are not modelled): -1, 0 or 1.
   */
  function LexCompare(a: string, b: string): (c: int)
    ensures -1 <= c <= 1
    ensures c == 0 <==> a == b
  {
    if a == [] && b == [] then 0
    else if a == [] then -1
    else if b == [] then 1
    else if a[0] < b[0] then -1
    else if a[0] > b[0] then 1
    else
      var c := LexCompare(a[1..], b[1..]);
      assert c == 0 ==> a == [a[0]] + a[1..] == [b[0]] + b[1..] == b;
      c
  }

  lemma {:induction false} LexCompareFlip(a: string, b: string)
    ensures LexCompare(a, b) == -LexCompare(b, a)
  {
    if a != [] && b != [] && a[0] == b[0] {
      LexCompareFlip(a[1..], b[1..]);
    }
  }

  lemma {:induction false} LexCompareTransitive(a: string, b: string, c: string)
    requires LexCompare(a, b) <= 0 && LexCompare(b, c) <= 0
    ensures LexCompare(a, c) <= 0
  {
    if a != [] && b != [] && c != [] && a[0] == b[0] == c[0] {
      LexCompareTransitive(a[1..], b[1..], c[1..]);
    }
  }

  // ---------------------------------------------------------------------
  // Properties of a comparator on the elements of a sequence

  /** `cmp` is a total preorder on the elements of `s`. */
  ghost predicate TotalPreorderOn<T>(cmp: (T, T) -> int, s: seq<T>) {
    (forall a, b {:trigger cmp(a, b)} | a in s && b in s :: cmp(a, b) <= 0 || cmp(b, a) <= 0) &&
    (forall a, b, c {:trigger cmp(a, b), cmp(b, c)} | a in s && b in s && c in s && cmp(a, b) <= 0 && cmp(b, c) <= 0 :: cmp(a, c) <= 0)
  }

  /** Only equal elements of `s` compare equal under `cmp`. */
  ghost predicate SeparatesOn<T>(cmp: (T, T) -> int, s: seq<T>) {
    forall a, b | a in s && b in s && cmp(a, b) <= 0 && cmp(b, a) <= 0 :: a == b
  }

  ghost predicate Sorted<T>(cmp: (T, T) -> int, s: seq<T>) {
    forall i, j | 0 <= i < j < |s| :: cmp(s[i], s[j]) <= 0
  }

  // ---------------------------------------------------------------------
  // The stable sort

  /** Inserts `x` before the first element that compares greater than it. */
  function Insert<T>(cmp: (T, T) -> int, x: T, s: seq<T>): (r: seq<T>)
    ensures multiset(r) == multiset(s) + multiset{x}
    ensures |r| == |s| + 1
  {
    if s == [] then [x]
    else if cmp(s[0], x) > 0 then [x] + s
    else
      assert s == [s[0]] + s[1..];
      [s[0]] + Insert(cmp, x, s[1..])
  }

  /**
   * `array.sort(cmp)`: a stable sort with comparator `cmp` (insertion sort,
   * each element placed after the earlier ones it does not precede).
   */
  function SortBy<T>(cmp: (T, T) -> int, s: seq<T>): (r: seq<T>)
    decreases |s|
  {
    if s == [] then [] else Insert(cmp, s[|s| - 1], SortBy(cmp, s[..|s| - 1]))
  }

  /** Sorting only reorders: the result is a permutation of the input. */
  lemma {:induction false} SortByPermutation<T>(cmp: (T, T) -> int, s: seq<T>)
    ensures multiset(SortBy(cmp, s)) == multiset(s)
    ensures |SortBy(cmp, s)| == |s|
    decreases |s|
  {
    if s != [] {
      SortByPermutation(cmp, s[..|s| - 1]);
      assert s == s[..|s| - 1] + [s[|s| - 1]];
    }
  }

  lemma SubsetPreorder<T>(cmp: (T, T) -> int, s: seq<T>, t: seq<T>)
    requires TotalPreorderOn(cmp, s)
    requires forall x | x in t :: x in s
    ensures TotalPreorderOn(cmp, t)
  {
  }

  lemma SortedTail<T>(cmp: (T, T) -> int, s: seq<T>)
    requires Sorted(cmp, s) && s != []
    ensures Sorted(cmp, s[1..])
  {
    forall p, q | 0 <= p < q < |s[1..]| ensures cmp(s[1..][p], s[1..][q]) <= 0 {
      assert s[1..][p] == s[p + 1] && s[1..][q] == s[q + 1];
    }
  }

  lemma SortedCons<T>(cmp: (T, T) -> int, h: T, r: seq<T>)
    requires Sorted(cmp, r)
    requires forall j | 0 <= j < |r| :: cmp(h, r[j]) <= 0
    ensures Sorted(cmp, [h] + r)
  {
    var whole := [h] + r;
    forall i, j | 0 <= i < j < |whole| ensures cmp(whole[i], whole[j]) <= 0 {
      assert whole[j] == r[j - 1];
      if i > 0 { assert whole[i] == r[i - 1]; }
    }
  }

  lemma TailPermutation<T>(a: seq<T>, b: seq<T>)
    requires a != [] && b != [] && a[0] == b[0]
    requires multiset(a) == multiset(b)
    ensures multiset(a[1..]) == multiset(b[1..])
  {
    assert a == [a[0]] + a[1..];
    assert b == [b[0]] + b[1..];
    calc {
      multiset(a[1..]);
      multiset(a) - multiset{a[0]};
      multiset(b) - multiset{b[0]};
      multiset(b[1..]);
    }
  }

  /** Every element of `Insert(cmp, x, s)` is `x` or an element of `s`. */
  lemma InsertElements<T>(cmp: (T, T) -> int, x: T, s: seq<T>, j: nat)
    requires j < |Insert(cmp, x, s)|
    ensures Insert(cmp, x, s)[j] == x || Insert(cmp, x, s)[j] in s
  {
    var r := Insert(cmp, x, s);
    assert r[j] in multiset(r);
  }

  lemma {:induction false} InsertSorted<T>(cmp: (T, T) -> int, x: T, s: seq<T>)
    requires Sorted(cmp, s)
    requires TotalPreorderOn(cmp, s + [x])
    ensures Sorted(cmp, Insert(cmp, x, s))
  {
    if s != [] && cmp(s[0], x) <= 0 {
      var t := s[1..];
      SortedTail(cmp, s);
      assert forall y | y in t + [x] :: y in s + [x];
      SubsetPreorder(cmp, s + [x], t + [x]);
      InsertSorted(cmp, x, t);
      var r := Insert(cmp, x, t);
      forall j | 0 <= j < |r| ensures cmp(s[0], r[j]) <= 0 {
        InsertElements(cmp, x, t, j);
        if r[j] != x {
          var k :| 0 <= k < |t| && t[k] == r[j];
          assert s[k + 1] == r[j];
        }
      }
      SortedCons(cmp, s[0], r);
    } else if s != [] {
      InsertFrontSorted(cmp, x, s);
    }
  }

  lemma InsertFrontSorted<T>(cmp: (T, T) -> int, x: T, s: seq<T>)
    requires Sorted(cmp, s) && s != []
    requires TotalPreorderOn(cmp, s + [x])
    requires cmp(s[0], x) > 0
    ensures Sorted(cmp, [x] + s)
  {
    assert s[0] in s + [x] && x in s + [x];
    assert cmp(x, s[0]) <= 0;
    forall j | 0 <= j < |s| ensures cmp(x, s[j]) <= 0 {
      if j > 0 {
        assert cmp(s[0], s[j]) <= 0;
        assert s[j] in s + [x];
      }
    }
    SortedCons(cmp, x, s);
  }

  /** With a comparator that is a total preorder on the elements, the result is sorted. */
  lemma {:induction false} SortBySorted<T>(cmp: (T, T) -> int, s: seq<T>)
    requires TotalPreorderOn(cmp, s)
    ensures Sorted(cmp, SortBy(cmp, s))
    decreases |s|
  {
    if s != [] {
      var init := s[..|s| - 1];
      assert forall y | y in init :: y in s;
      SubsetPreorder(cmp, s, init);
      SortBySorted(cmp, init);
      SortByPermutation(cmp, init);
      var t := SortBy(cmp, init);
      forall y | y in t + [s[|s| - 1]] ensures y in s {
        if y in t { assert y in multiset(t); assert y in init; }
      }
      SubsetPreorder(cmp, s, t + [s[|s| - 1]]);
      InsertSorted(cmp, s[|s| - 1], t);
    }
  }

  // ---------------------------------------------------------------------
  // Stability

  /** `a` and `b` compare equal. */
  ghost predicate Tied<T>(cmp: (T, T) -> int, a: T, b: T) {
    cmp(a, b) <= 0 && cmp(b, a) <= 0
  }

  /** The elements of `s` that tie with `e`, in their order in `s`. */
  ghost function TiedWith<T>(cmp: (T, T) -> int, e: T, s: seq<T>): seq<T> {
    if s == [] then []
    else if Tied(cmp, e, s[0]) then [s[0]] + TiedWith(cmp, e, s[1..])
    else TiedWith(cmp, e, s[1..])
  }

  lemma {:induction false} TiedWithAppend<T>(cmp: (T, T) -> int, e: T, s: seq<T>, t: seq<T>)
    ensures TiedWith(cmp, e, s + t) == TiedWith(cmp, e, s) + TiedWith(cmp, e, t)
  {
    if s != [] {
      assert (s + t)[1..] == s[1..] + t;
      TiedWithAppend(cmp, e, s[1..], t);
    } else {
      assert s + t == t;
    }
  }

  lemma {:induction false} TiedWithNone<T>(cmp: (T, T) -> int, e: T, x: T, s: seq<T>, all: seq<T>)
    requires TotalPreorderOn(cmp, all)
    requires e in all && x in all && forall y | y in s :: y in all
    requires Tied(cmp, e, x)
    requires forall y | y in s :: cmp(y, x) > 0
    ensures TiedWith(cmp, e, s) == []
  {
    if s != [] {
      assert s[0] in s;
      assert forall y | y in s[1..] :: y in s;
      TiedWithNone(cmp, e, x, s[1..], all);
      assert cmp(s[0], x) > 0 && cmp(e, x) <= 0;
      assert !Tied(cmp, e, s[0]);
    }
  }

  lemma AllAboveTied<T>(cmp: (T, T) -> int, e: T, x: T, s: seq<T>, all: seq<T>)
    requires Sorted(cmp, s) && s != []
    requires TotalPreorderOn(cmp, all)
    requires x in all && forall y | y in s :: y in all
    requires cmp(s[0], x) > 0
    ensures forall y | y in s :: cmp(y, x) > 0
  {
    forall y | y in s ensures cmp(y, x) > 0 {
      var k :| 0 <= k < |s| && s[k] == y;
      assert s[0] in s;
    }
  }

  lemma TiedWithHead<T>(cmp: (T, T) -> int, e: T, h: T, r: seq<T>)
    ensures TiedWith(cmp, e, [h] + r) == (if Tied(cmp, e, h) then [h] else []) + TiedWith(cmp, e, r)
  {
    assert ([h] + r)[1..] == r;
  }

  lemma TiedWithCons<T>(cmp: (T, T) -> int, e: T, h: T, r: seq<T>, rest: seq<T>, tail: seq<T>)
    requires TiedWith(cmp, e, r) == TiedWith(cmp, e, rest) + tail
    ensures TiedWith(cmp, e, [h] + r) == TiedWith(cmp, e, [h] + rest) + tail
  {
    TiedWithHead(cmp, e, h, r);
    TiedWithHead(cmp, e, h, rest);
    ConcatAssociative([h], TiedWith(cmp, e, rest), tail);
  }

  lemma ConcatAssociative<T>(a: seq<T>, b: seq<T>, c: seq<T>)
    ensures a + (b + c) == (a + b) + c
  {
  }

  lemma InsertTiedFront<T>(cmp: (T, T) -> int, e: T, x: T, s: seq<T>, all: seq<T>)
    requires Sorted(cmp, s) && s != []
    requires TotalPreorderOn(cmp, all)
    requires e in all && x in all && forall y | y in s :: y in all
    requires cmp(s[0], x) > 0
    ensures TiedWith(cmp, e, [x] + s) ==
            TiedWith(cmp, e, s) + (if Tied(cmp, e, x) then [x] else [])
  {
    assert ([x] + s)[1..] == s;
    if Tied(cmp, e, x) {
      AllAboveTied(cmp, e, x, s, all);
      TiedWithNone(cmp, e, x, s, all);
    }
  }

  lemma {:induction false} InsertTiedWith<T>(cmp: (T, T) -> int, e: T, x: T, s: seq<T>, all: seq<T>)
    requires Sorted(cmp, s)
    requires TotalPreorderOn(cmp, all)
    requires e in all && x in all && forall y | y in s :: y in all
    ensures TiedWith(cmp, e, Insert(cmp, x, s)) ==
            TiedWith(cmp, e, s) + (if Tied(cmp, e, x) then [x] else [])
  {
    if s == [] {
    } else if cmp(s[0], x) > 0 {
      InsertTiedFront(cmp, e, x, s, all);
    } else {
      assert forall y | y in s[1..] :: y in s;
      SortedTail(cmp, s);
      InsertTiedWith(cmp, e, x, s[1..], all);
      InsertTiedStep(cmp, e, x, s, if Tied(cmp, e, x) then [x] else []);
    }
  }

  /** Inserting past the head of `s` keeps the head's contribution in front. */
  lemma InsertTiedStep<T>(cmp: (T, T) -> int, e: T, x: T, s: seq<T>, tail: seq<T>)
    requires s != [] && cmp(s[0], x) <= 0
    requires TiedWith(cmp, e, Insert(cmp, x, s[1..])) == TiedWith(cmp, e, s[1..]) + tail
    ensures TiedWith(cmp, e, Insert(cmp, x, s)) == TiedWith(cmp, e, s) + tail
  {
    assert s == [s[0]] + s[1..];
    TiedWithCons(cmp, e, s[0], Insert(cmp, x, s[1..]), s[1..], tail);
  }

  /**
   * The sort is stable: for every element `e`, the elements that tie with
   * `e` appear in the result in the order they had in the input.
   */
  lemma {:induction false} SortByStable<T>(cmp: (T, T) -> int, s: seq<T>, e: T)
    requires TotalPreorderOn(cmp, s)
    requires e in s
    ensures TiedWith(cmp, e, SortBy(cmp, s)) == TiedWith(cmp, e, s)
    decreases |s|
  {
    StableUpTo(cmp, s, e, s);
  }

  lemma {:induction false} StableUpTo<T>(cmp: (T, T) -> int, s: seq<T>, e: T, all: seq<T>)
    requires TotalPreorderOn(cmp, all)
    requires e in all && forall y | y in s :: y in all
    ensures TiedWith(cmp, e, SortBy(cmp, s)) == TiedWith(cmp, e, s)
    decreases |s|
  {
    if s != [] {
      var init, x := s[..|s| - 1], s[|s| - 1];
      assert s == init + [x];
      assert forall y | y in init :: y in s;
      StableUpTo(cmp, init, e, all);
      var t := SortBy(cmp, init);
      SortByMembers(cmp, init, all);
      SubsetPreorder(cmp, all, init);
      SortBySorted(cmp, init);
      assert x in s;
      InsertTiedWith(cmp, e, x, t, all);
      TiedWithAppend(cmp, e, init, [x]);
      TiedWithSingle(cmp, e, x);
    }
  }

  lemma SortByMembers<T>(cmp: (T, T) -> int, s: seq<T>, all: seq<T>)
    requires forall y | y in s :: y in all
    ensures forall y | y in SortBy(cmp, s) :: y in all
  {
    SortByPermutation(cmp, s);
    forall y | y in SortBy(cmp, s) ensures y in all {
      assert y in multiset(SortBy(cmp, s));
      assert y in s;
    }
  }

  lemma TiedWithSingle<T>(cmp: (T, T) -> int, e: T, x: T)
    ensures TiedWith(cmp, e, [x]) == (if Tied(cmp, e, x) then [x] else [])
  {
    assert [x][1..] == [];
  }

  // ---------------------------------------------------------------------
  // Uniqueness and reversal

  /**
   * Two sorted permutations of the same elements are equal when the
   * comparator separates the elements.
   */
  lemma {:induction false} SortedPermutationUnique<T>(cmp: (T, T) -> int, a: seq<T>, b: seq<T>)
    requires multiset(a) == multiset(b)
    requires Sorted(cmp, a) && Sorted(cmp, b)
    requires SeparatesOn(cmp, a)
    ensures a == b
    decreases |a|
  {
    assert |a| == |multiset(a)| == |b|;
    if a != [] {
      assert a[0] in multiset(b);
      assert b[0] in multiset(a);
      var j :| 0 <= j < |b| && b[j] == a[0];
      var i :| 0 <= i < |a| && a[i] == b[0];
      if i != 0 && j != 0 {
        assert cmp(a[0], a[i]) <= 0;
        assert cmp(b[0], b[j]) <= 0;
        assert a[0] in a && a[i] in a;
      }
      assert a[0] == b[0];
      TailPermutation(a, b);
      assert forall y | y in a[1..] :: y in a;
      SortedTail(cmp, a);
      SortedTail(cmp, b);
      SortedPermutationUnique(cmp, a[1..], b[1..]);
    }
  }

  function Reverse<T>(s: seq<T>): (r: seq<T>)
    ensures |r| == |s|
    ensures forall k | 0 <= k < |s| :: r[k] == s[|s| - 1 - k]
  {
    if s == [] then [] else Reverse(s[1..]) + [s[0]]
  }

  lemma {:induction false} ReversePermutation<T>(s: seq<T>)
    ensures multiset(Reverse(s)) == multiset(s)
  {
    if s != [] {
      ReversePermutation(s[1..]);
      assert s == [s[0]] + s[1..];
    }
  }

  /** A sequence sorted by `cmp` reads backwards sorted by the flipped comparator. */
  lemma ReverseSorted<T>(cmp: (T, T) -> int, flipped: (T, T) -> int, s: seq<T>)
    requires Sorted(cmp, s)
    requires forall x, y | x in s && y in s :: flipped(x, y) == cmp(y, x)
    ensures Sorted(flipped, Reverse(s))
  {
    var r := Reverse(s);
    forall i, j | 0 <= i < j < |r| ensures flipped(r[i], r[j]) <= 0 {
      assert r[i] == s[|s| - 1 - i] && r[j] == s[|s| - 1 - j];
      assert r[i] in s && r[j] in s;
    }
  }

  /** `s.slice(0, n)` for `n >= 0`. */
  function Take<T>(s: seq<T>, n: nat): (r: seq<T>)
    ensures |r| == if n < |s| then n else |s|
    ensures r == s[..|r|]
  {
    if n < |s| then s[..n] else s
  }

  /** A prefix takes nothing the list does not have. */
  lemma TakeSubMultiset<T>(s: seq<T>, n: nat)
    ensures multiset(Take(s, n)) <= multiset(s)
  {
    var r := Take(s, n);
    assert s == r + s[|r|..];
  }
}
