/**
 * The "all ratings" listing: the eight sort orders, the five-per-page
 * window, the page-button list, and the best-rated trophies.
 */
module Listing {
  import opened Wrappers
  import opened Text
  import opened Tokens
  import opened Records
  import opened Ordering

  // ---------------------------------------------------------------------
  // The eight comparators

  /**
   * `x - y || ka.localeCompare(kb)`: a difference that is zero, or NaN
   * because a rating is a sentinel, falls through to the key order. Only the
   * sign of a comparator matters to the sort, so the difference is kept as its sign.
   */
  function RatingThenKey(x: Rating, y: Rating, ka: string, kb: string): int {
    if x.Numeric? && y.Numeric? && x.r != y.r then (if x.r < y.r then -1 else 1)
    else LexCompare(ka, kb)
  }

  function ByRatingAsc(a: Entry, b: Entry): int { RatingThenKey(a.1.rating, b.1.rating, a.0, b.0) }
  function ByRatingDesc(a: Entry, b: Entry): int { RatingThenKey(b.1.rating, a.1.rating, a.0, b.0) }
  function ByArtistAsc(a: Entry, b: Entry): int { LexCompare(a.1.artist, b.1.artist) }
  function ByArtistDesc(a: Entry, b: Entry): int { LexCompare(b.1.artist, a.1.artist) }
  function ByGenreAsc(a: Entry, b: Entry): int { LexCompare(a.1.genre, b.1.genre) }
  function ByGenreDesc(a: Entry, b: Entry): int { LexCompare(b.1.genre, a.1.genre) }

  /**
   * `new Date(releaseDate || 0)` as a comparable day: an empty date is the
   * epoch, an ISO date its ordinal, anything else an Invalid Date (`None`).
   */
  function DateKey(releaseDate: string): Option<nat> {
    if releaseDate == "" then Some(EpochOrdinal) else IsoOrdinal(releaseDate)
  }

  /** The difference of two dates; a NaN difference counts as a tie. */
  function DateCompare(x: Option<nat>, y: Option<nat>): int {
    if x.Some? && y.Some? then (if x.value < y.value then -1 else if x.value > y.value then 1 else 0)
    else 0
  }

  function ByDateAsc(a: Entry, b: Entry): int { DateCompare(DateKey(a.1.releaseDate), DateKey(b.1.releaseDate)) }
  function ByDateDesc(a: Entry, b: Entry): int { DateCompare(DateKey(b.1.releaseDate), DateKey(a.1.releaseDate)) }

  lemma LexAntisymmetric()
    ensures forall a: string, b: string :: LexCompare(a, b) == -LexCompare(b, a)
  {
    forall a: string, b: string ensures LexCompare(a, b) == -LexCompare(b, a) {
      LexCompareFlip(a, b);
    }
  }

  /**
   * `sorters[sortOption]`: every comparator answers -1, 0 or 1, and swapping
   * its arguments negates the answer.
   */
  function Comparator(opt: SortOption): (cmp: (Entry, Entry) -> int)
    ensures forall a, b :: -1 <= cmp(a, b) <= 1 && cmp(a, b) == -cmp(b, a)
  {
    LexAntisymmetric();
    match opt
    case RatingAsc => ByRatingAsc
    case RatingDesc => ByRatingDesc
    case ArtistAsc => ByArtistAsc
    case ArtistDesc => ByArtistDesc
    case GenreAsc => ByGenreAsc
    case GenreDesc => ByGenreDesc
    case DateAsc => ByDateAsc
    case DateDesc => ByDateDesc
  }

  /**
   * `Object.entries(savedRatings).sort(sorters[sortOption])`: every sort
   * order lists each saved rating once, so the result is a permutation.
   */
  function SortEntries(opt: SortOption, entries: seq<Entry>): (sorted: seq<Entry>)
    ensures multiset(sorted) == multiset(entries)
    ensures |sorted| == |entries|
  {
    SortByPermutation(Comparator(opt), entries);
    SortBy(Comparator(opt), entries)
  }

  predicate AllNumeric(entries: seq<Entry>) {
    forall i | 0 <= i < |entries| :: entries[i].1.rating.Numeric?
  }

  lemma RatingThenKeyPreorder(x: Rating, y: Rating, z: Rating, ka: string, kb: string, kc: string)
    requires x.Numeric? && y.Numeric? && z.Numeric?
    ensures RatingThenKey(x, y, ka, kb) <= 0 || RatingThenKey(y, x, kb, ka) <= 0
    ensures RatingThenKey(x, y, ka, kb) <= 0 && RatingThenKey(y, z, kb, kc) <= 0 ==> RatingThenKey(x, z, ka, kc) <= 0
  {
    LexCompareFlip(ka, kb);
    if LexCompare(ka, kb) <= 0 && LexCompare(kb, kc) <= 0 {
      LexCompareTransitive(ka, kb, kc);
    }
  }

  lemma RatingAscPreorder(entries: seq<Entry>)
    requires AllNumeric(entries)
    ensures TotalPreorderOn(ByRatingAsc, entries)
  {
    forall a, b, c | a in entries && b in entries && c in entries
      ensures ByRatingAsc(a, b) <= 0 || ByRatingAsc(b, a) <= 0
      ensures ByRatingAsc(a, b) <= 0 && ByRatingAsc(b, c) <= 0 ==> ByRatingAsc(a, c) <= 0
    {
      RatingThenKeyPreorder(a.1.rating, b.1.rating, c.1.rating, a.0, b.0, c.0);
    }
  }

  lemma RatingDescPreorder(entries: seq<Entry>)
    requires AllNumeric(entries)
    ensures TotalPreorderOn(ByRatingDesc, entries)
  {
    forall a, b, c | a in entries && b in entries && c in entries
      ensures ByRatingDesc(a, b) <= 0 || ByRatingDesc(b, a) <= 0
      ensures ByRatingDesc(a, b) <= 0 && ByRatingDesc(b, c) <= 0 ==> ByRatingDesc(a, c) <= 0
    {
      RatingThenKeyPreorder(c.1.rating, b.1.rating, a.1.rating, c.0, b.0, a.0);
      RatingThenKeyPreorder(b.1.rating, a.1.rating, c.1.rating, b.0, a.0, c.0);
      RatingThenKeyPreorder(a.1.rating, b.1.rating, c.1.rating, a.0, b.0, c.0);
    }
  }

  lemma SortedStaysNumeric(opt: SortOption, entries: seq<Entry>)
    requires AllNumeric(entries)
    ensures AllNumeric(SortEntries(opt, entries))
  {
    var r := SortEntries(opt, entries);
    SortByMembers(Comparator(opt), entries, entries);
    forall i | 0 <= i < |r| ensures r[i].1.rating.Numeric? {
      assert r[i] in r;
      var k :| 0 <= k < |entries| && entries[k] == r[i];
    }
  }

  /**
   * Highest rating first; equal ratings in ascending key order (ratings are
   * numbers, as the save path stores them).
   */
  lemma RatingDescOrdered(entries: seq<Entry>)
    requires AllNumeric(entries)
    ensures AllNumeric(SortEntries(RatingDesc, entries))
    ensures var r := SortEntries(RatingDesc, entries);
      forall i, j | 0 <= i < j < |r| ::
        r[i].1.rating.r > r[j].1.rating.r ||
        (r[i].1.rating.r == r[j].1.rating.r && LexCompare(r[i].0, r[j].0) <= 0)
  {
    SortedStaysNumeric(RatingDesc, entries);
    RatingDescPreorder(entries);
    SortBySorted(ByRatingDesc, entries);
  }

  /** Lowest rating first; equal ratings in ascending key order as well. */
  lemma RatingAscOrdered(entries: seq<Entry>)
    requires AllNumeric(entries)
    ensures AllNumeric(SortEntries(RatingAsc, entries))
    ensures var r := SortEntries(RatingAsc, entries);
      forall i, j | 0 <= i < j < |r| ::
        r[i].1.rating.r < r[j].1.rating.r ||
        (r[i].1.rating.r == r[j].1.rating.r && LexCompare(r[i].0, r[j].0) <= 0)
  {
    SortedStaysNumeric(RatingAsc, entries);
    RatingAscPreorder(entries);
    SortBySorted(ByRatingAsc, entries);
  }

  predicate DistinctRatings(entries: seq<Entry>)
    requires AllNumeric(entries)
  {
    forall i, j | 0 <= i < j < |entries| :: entries[i].1.rating.r != entries[j].1.rating.r
  }

  lemma DistinctRatingsOfMembers(entries: seq<Entry>, x: Entry, y: Entry)
    requires AllNumeric(entries) && DistinctRatings(entries)
    requires x in entries && y in entries && x != y
    ensures x.1.rating.Numeric? && y.1.rating.Numeric? && x.1.rating.r != y.1.rating.r
  {
    var p :| 0 <= p < |entries| && entries[p] == x;
    var q :| 0 <= q < |entries| && entries[q] == y;
    assert p != q;
  }

  lemma DescFlipsAsc(entries: seq<Entry>, a: seq<Entry>)
    requires AllNumeric(entries) && DistinctRatings(entries)
    requires forall x | x in a :: x in entries
    ensures forall x, y | x in a && y in a :: ByRatingDesc(x, y) == ByRatingAsc(y, x)
  {
    forall x, y | x in a && y in a ensures ByRatingDesc(x, y) == ByRatingAsc(y, x) {
      if x != y { DistinctRatingsOfMembers(entries, x, y); }
    }
  }

  lemma DescSeparates(entries: seq<Entry>, d: seq<Entry>)
    requires AllNumeric(entries) && DistinctRatings(entries)
    requires forall x | x in d :: x in entries
    ensures SeparatesOn(ByRatingDesc, d)
  {
    forall x, y | x in d && y in d && ByRatingDesc(x, y) <= 0 && ByRatingDesc(y, x) <= 0 ensures x == y {
      if x != y { DistinctRatingsOfMembers(entries, x, y); }
    }
  }

  /** With no two equal ratings, "highest first" is "lowest first" read backwards. */
  lemma RatingSortsReverse(entries: seq<Entry>)
    requires AllNumeric(entries) && DistinctRatings(entries)
    ensures SortEntries(RatingDesc, entries) == Reverse(SortEntries(RatingAsc, entries))
  {
    var a, d := SortEntries(RatingAsc, entries), SortEntries(RatingDesc, entries);
    RatingAscPreorder(entries);
    RatingDescPreorder(entries);
    SortBySorted(ByRatingAsc, entries);
    SortBySorted(ByRatingDesc, entries);
    SortByMembers(ByRatingAsc, entries, entries);
    SortByMembers(ByRatingDesc, entries, entries);
    DescFlipsAsc(entries, a);
    ReverseSorted(ByRatingAsc, ByRatingDesc, a);
    DescSeparates(entries, d);
    ReversePermutation(a);
    SortedPermutationUnique(ByRatingDesc, d, Reverse(a));
  }

  predicate IsTextSort(opt: SortOption) {
    opt.ArtistAsc? || opt.ArtistDesc? || opt.GenreAsc? || opt.GenreDesc?
  }

  predicate IsDateSort(opt: SortOption) {
    opt.DateAsc? || opt.DateDesc?
  }

  predicate Ascending(opt: SortOption) {
    opt.RatingAsc? || opt.ArtistAsc? || opt.GenreAsc? || opt.DateAsc?
  }

  /** The field an artist or genre sort compares. */
  function TextKey(opt: SortOption, rec: AlbumRecord): string {
    if opt.ArtistAsc? || opt.ArtistDesc? then rec.artist else rec.genre
  }

  lemma TextComparator(opt: SortOption, a: Entry, b: Entry)
    requires IsTextSort(opt)
    ensures Comparator(opt)(a, b) ==
      if Ascending(opt) then LexCompare(TextKey(opt, a.1), TextKey(opt, b.1))
      else LexCompare(TextKey(opt, b.1), TextKey(opt, a.1))
  {
  }

  lemma TextSortPreorder(opt: SortOption, entries: seq<Entry>)
    requires IsTextSort(opt)
    ensures TotalPreorderOn(Comparator(opt), entries)
  {
    var cmp := Comparator(opt);
    forall a, b, c | a in entries && b in entries && c in entries
      ensures cmp(a, b) <= 0 || cmp(b, a) <= 0
      ensures cmp(a, b) <= 0 && cmp(b, c) <= 0 ==> cmp(a, c) <= 0
    {
      var ka, kb, kc := TextKey(opt, a.1), TextKey(opt, b.1), TextKey(opt, c.1);
      TextComparator(opt, a, b);
      TextComparator(opt, b, a);
      TextComparator(opt, b, c);
      TextComparator(opt, a, c);
      LexCompareFlip(ka, kb);
      if LexCompare(ka, kb) <= 0 && LexCompare(kb, kc) <= 0 { LexCompareTransitive(ka, kb, kc); }
      if LexCompare(kc, kb) <= 0 && LexCompare(kb, ka) <= 0 { LexCompareTransitive(kc, kb, ka); }
    }
  }

  /**
   * An artist or genre sort orders by that field (A to Z or Z to A), and
   * records with equal fields keep their saved order.
   */
  lemma TextSortOrdered(opt: SortOption, entries: seq<Entry>)
    requires IsTextSort(opt)
    ensures var r := SortEntries(opt, entries);
      forall i, j | 0 <= i < j < |r| ::
        if Ascending(opt) then LexCompare(TextKey(opt, r[i].1), TextKey(opt, r[j].1)) <= 0
        else LexCompare(TextKey(opt, r[j].1), TextKey(opt, r[i].1)) <= 0
    ensures forall e | e in entries ::
      TiedWith(Comparator(opt), e, SortEntries(opt, entries)) == TiedWith(Comparator(opt), e, entries)
  {
    var r := SortEntries(opt, entries);
    TextSortPreorder(opt, entries);
    SortBySorted(Comparator(opt), entries);
    forall i, j | 0 <= i < j < |r|
      ensures if Ascending(opt) then LexCompare(TextKey(opt, r[i].1), TextKey(opt, r[j].1)) <= 0
              else LexCompare(TextKey(opt, r[j].1), TextKey(opt, r[i].1)) <= 0
    {
      TextComparator(opt, r[i], r[j]);
    }
    forall e | e in entries
      ensures TiedWith(Comparator(opt), e, r) == TiedWith(Comparator(opt), e, entries)
    {
      SortByStable(Comparator(opt), entries, e);
    }
  }

  predicate AllDated(entries: seq<Entry>) {
    forall i | 0 <= i < |entries| :: DateKey(entries[i].1.releaseDate).Some?
  }

  lemma DateComparator(opt: SortOption, a: Entry, b: Entry)
    requires IsDateSort(opt)
    requires DateKey(a.1.releaseDate).Some? && DateKey(b.1.releaseDate).Some?
    ensures var x, y := DateKey(a.1.releaseDate).value, DateKey(b.1.releaseDate).value;
      Comparator(opt)(a, b) <= 0 <==> if Ascending(opt) then x <= y else y <= x
  {
  }

  lemma DateSortPreorder(opt: SortOption, entries: seq<Entry>)
    requires IsDateSort(opt) && AllDated(entries)
    ensures TotalPreorderOn(Comparator(opt), entries)
  {
    var cmp := Comparator(opt);
    forall a, b, c | a in entries && b in entries && c in entries
      ensures cmp(a, b) <= 0 || cmp(b, a) <= 0
      ensures cmp(a, b) <= 0 && cmp(b, c) <= 0 ==> cmp(a, c) <= 0
    {
      var p :| 0 <= p < |entries| && entries[p] == a;
      var q :| 0 <= q < |entries| && entries[q] == b;
      var u :| 0 <= u < |entries| && entries[u] == c;
      DateComparator(opt, a, b);
      DateComparator(opt, b, a);
      DateComparator(opt, b, c);
      DateComparator(opt, a, c);
    }
  }

  /**
   * When every release date is empty or an ISO date, a date sort orders by
   * day (oldest or newest first), an empty date counting as 1970-01-01, and
   * records on the same day keep their saved order.
   */
  lemma DateSortOrdered(opt: SortOption, entries: seq<Entry>)
    requires IsDateSort(opt) && AllDated(entries)
    ensures AllDated(SortEntries(opt, entries))
    ensures var r := SortEntries(opt, entries);
      forall i, j | 0 <= i < j < |r| ::
        var x, y := DateKey(r[i].1.releaseDate).value, DateKey(r[j].1.releaseDate).value;
        if Ascending(opt) then x <= y else y <= x
    ensures forall e | e in entries ::
      TiedWith(Comparator(opt), e, SortEntries(opt, entries)) == TiedWith(Comparator(opt), e, entries)
  {
    var r := SortEntries(opt, entries);
    SortByMembers(Comparator(opt), entries, entries);
    forall i | 0 <= i < |r| ensures DateKey(r[i].1.releaseDate).Some? {
      assert r[i] in r;
      var k :| 0 <= k < |entries| && entries[k] == r[i];
    }
    DateSortPreorder(opt, entries);
    SortBySorted(Comparator(opt), entries);
    forall i, j | 0 <= i < j < |r|
      ensures var x, y := DateKey(r[i].1.releaseDate).value, DateKey(r[j].1.releaseDate).value;
        if Ascending(opt) then x <= y else y <= x
    {
      DateComparator(opt, r[i], r[j]);
    }
    forall e | e in entries
      ensures TiedWith(Comparator(opt), e, r) == TiedWith(Comparator(opt), e, entries)
    {
      SortByStable(Comparator(opt), entries, e);
    }
  }

  // ---------------------------------------------------------------------
  // Paging

  const AlbumsPerPage: nat := 5

  /** `Math.ceil(n / albumsPerPage)`: the fewest pages of five that hold `n` items. */
  function TotalPages(n: nat): (t: nat)
    ensures t * AlbumsPerPage >= n
    ensures t == 0 || (t - 1) * AlbumsPerPage < n
  {
    (n + AlbumsPerPage - 1) / AlbumsPerPage
  }

  /** A `slice` bound: a negative one counts from the end; then clamped to [0, len]. */
  function SliceIndex(i: int, len: nat): (k: nat)
    ensures k <= len
    ensures 0 <= i <= len ==> k == i
    ensures i > len ==> k == len
  {
    if i < 0 then (if len + i < 0 then 0 else len + i) else if i > len then len else i
  }

  /** `s.slice(start, end)`. */
  function JsSlice<T>(s: seq<T>, start: int, end: int): seq<T> {
    var lo, hi := SliceIndex(start, |s|), SliceIndex(end, |s|);
    if lo < hi then s[lo..hi] else []
  }

  function MinNat(a: nat, b: nat): nat { if a < b then a else b }

  /**
   * `s.slice(startIndex, startIndex + perPage)` with `startIndex = (page - 1) * perPage`:
   * page `p` is the window of items `5(p - 1)` up to `5p` (cut at the end),
   * at most five of them, and a page past the last one is empty.
   */
  function PageOf<T>(s: seq<T>, page: int): (items: seq<T>)
    ensures page >= 1 ==>
      items == s[MinNat((page - 1) * AlbumsPerPage, |s|)..MinNat(page * AlbumsPerPage, |s|)]
    ensures |items| <= AlbumsPerPage
    ensures page > TotalPages(|s|) ==> items == []
  {
    JsSlice(s, (page - 1) * AlbumsPerPage, (page - 1) * AlbumsPerPage + AlbumsPerPage)
  }

  /** Pages 1 to `k` one after another. */
  function PagesUpTo<T>(s: seq<T>, k: nat): seq<T> {
    if k == 0 then [] else PagesUpTo(s, k - 1) + PageOf(s, k)
  }

  lemma {:induction false} PagesUpToPrefix<T>(s: seq<T>, k: nat)
    ensures PagesUpTo(s, k) == s[..MinNat(k * AlbumsPerPage, |s|)]
  {
    if k > 0 {
      PagesUpToPrefix(s, k - 1);
      var a, b := MinNat((k - 1) * AlbumsPerPage, |s|), MinNat(k * AlbumsPerPage, |s|);
      assert s[..a] + s[a..b] == s[..b];
    }
  }

  /** Pages 1 to `ceil(n / 5)`, one after another, are exactly the sorted list. */
  lemma PagesCoverList<T>(s: seq<T>)
    ensures PagesUpTo(s, TotalPages(|s|)) == s
  {
    PagesUpToPrefix(s, TotalPages(|s|));
    assert s[..|s|] == s;
  }

  // ---------------------------------------------------------------------
  // The page-button list

  datatype PageButton = PageNumber(n: int) | Ellipsis

  const MaxVisible: int := 5

  /** Buttons `a`, `a + 1`, ..., `e` (none when `e < a`). */
  function NumberRun(a: int, e: int): (r: seq<PageButton>)
    ensures |r| == if e < a then 0 else e - a + 1
    ensures forall k | 0 <= k < |r| :: r[k] == PageNumber(a + k)
    decreases if e < a then 0 else e - a + 1
  {
    if e < a then [] else NumberRun(a, e - 1) + [PageNumber(e)]
  }

  /**
   * Adjacent numbers are consecutive, and an ellipsis sits between two
   * numbers that are at least two apart: an ellipsis marks exactly the gaps.
   */
  predicate Chained(b: seq<PageButton>) {
    (forall k | 0 <= k < |b| - 1 && b[k].PageNumber? && b[k + 1].PageNumber? :: b[k + 1].n == b[k].n + 1) &&
    (forall k | 0 <= k < |b| && b[k].Ellipsis? ::
      0 < k < |b| - 1 && b[k - 1].PageNumber? && b[k + 1].PageNumber? && b[k + 1].n >= b[k - 1].n + 2)
  }

  /** A pager list: from page 1 to page `total`, chained. */
  predicate PagerShape(b: seq<PageButton>, total: int) {
    |b| >= 2 && b[0] == PageNumber(1) && b[|b| - 1] == PageNumber(total) && Chained(b)
  }

  lemma ChainNumber(b: seq<PageButton>, n: int)
    requires Chained(b) && b != [] && b[|b| - 1] == PageNumber(n - 1)
    ensures Chained(b + [PageNumber(n)])
  {
  }

  lemma ChainGap(b: seq<PageButton>, n: int)
    requires Chained(b) && b != [] && b[|b| - 1].PageNumber? && n >= b[|b| - 1].n + 2
    ensures Chained(b + [Ellipsis] + [PageNumber(n)])
  {
    var c := b + [Ellipsis] + [PageNumber(n)];
    var m := |b|;
    assert forall k | 0 <= k < m :: c[k] == b[k];
    assert c[m] == Ellipsis && c[m + 1] == PageNumber(n);
    forall k | 0 <= k < |c| - 1 && c[k].PageNumber? && c[k + 1].PageNumber? ensures c[k + 1].n == c[k].n + 1 {
      assert k + 1 < m;
    }
    forall k | 0 <= k < |c| && c[k].Ellipsis?
      ensures 0 < k < |c| - 1 && c[k - 1].PageNumber? && c[k + 1].PageNumber? && c[k + 1].n >= c[k - 1].n + 2
    {
      if k < m {
        assert b[k].Ellipsis?;
      }
    }
  }

  lemma RunCons(a: int, e: int)
    requires a <= e
    ensures NumberRun(a, e) == [PageNumber(a)] + NumberRun(a + 1, e)
  {
  }

  lemma {:induction false} ChainRun(b: seq<PageButton>, a: int, e: int)
    requires Chained(b) && b != [] && b[|b| - 1] == PageNumber(a - 1)
    ensures Chained(b + NumberRun(a, e))
    ensures (b + NumberRun(a, e))[|b + NumberRun(a, e)| - 1] == PageNumber(if e < a then a - 1 else e)
    decreases if e < a then 0 else e - a + 1
  {
    if e >= a {
      ChainNumber(b, a);
      ChainRun(b + [PageNumber(a)], a + 1, e);
      RunCons(a, e);
      ConcatAssociative(b, [PageNumber(a)], NumberRun(a + 1, e));
    } else {
      assert NumberRun(a, e) == [];
      assert b + [] == b;
    }
  }

  /** In a pager list the page numbers strictly increase from left to right. */
  lemma {:induction false} ChainedIncreasing(b: seq<PageButton>, i: int, j: int)
    requires Chained(b) && 0 <= i < j < |b| && b[i].PageNumber? && b[j].PageNumber?
    ensures b[i].n < b[j].n
    decreases j - i
  {
    if j > i + 1 {
      if b[j - 1].PageNumber? {
        ChainedIncreasing(b, i, j - 1);
      } else if j - 2 > i {
        ChainedIncreasing(b, i, j - 2);
      }
    }
  }

  function MaxInt(a: int, b: int): int { if a > b then a else b }
  function MinInt(a: int, b: int): int { if a < b then a else b }

  function Gap(present: bool): seq<PageButton> {
    if present then [Ellipsis] else []
  }

  /** The head of the list for more than five pages: page 1, an ellipsis when `current > 3`, the middle run. */
  function LayoutHead(total: int, current: int): seq<PageButton> {
    [PageNumber(1)] + Gap(current > 3) + NumberRun(MaxInt(2, current - 1), MinInt(total - 1, current + 1))
  }

  /** The list built for more than five pages, written as one expression. */
  function Layout(total: int, current: int): seq<PageButton> {
    LayoutHead(total, current) + Gap(current < total - 2) + [PageNumber(total)]
  }

  lemma RunMembers(a: int, e: int, n: int)
    ensures PageNumber(n) in NumberRun(a, e) <==> a <= n <= e
  {
    var r := NumberRun(a, e);
    if a <= n <= e { assert r[n - a] == PageNumber(n); }
    if PageNumber(n) in r { var k :| 0 <= k < |r| && r[k] == PageNumber(n); }
  }

  lemma LayoutMembers(total: int, current: int, n: int)
    requires total > MaxVisible
    ensures PageNumber(n) in Layout(total, current) <==>
      n == 1 || n == total || (1 <= n <= total && current - 1 <= n <= current + 1)
  {
    RunMembers(MaxInt(2, current - 1), MinInt(total - 1, current + 1), n);
  }

  lemma HeadChained(total: int, current: int)
    requires total > MaxVisible
    requires MaxInt(2, current - 1) <= MinInt(total - 1, current + 1)
    ensures Chained(LayoutHead(total, current))
    ensures LayoutHead(total, current)[|LayoutHead(total, current)| - 1] == PageNumber(MinInt(total - 1, current + 1))
  {
    var start, end := MaxInt(2, current - 1), MinInt(total - 1, current + 1);
    var one := [PageNumber(1)];
    if current > 3 {
      ChainGap(one, start);
      ChainRun(one + [Ellipsis] + [PageNumber(start)], start + 1, end);
      RunCons(start, end);
      ConcatAssociative(one + [Ellipsis], [PageNumber(start)], NumberRun(start + 1, end));
    } else {
      ChainRun(one, start, end);
      assert one + Gap(current > 3) == one;
    }
  }

  lemma EmptyRunLayout(total: int, current: int)
    requires total > MaxVisible
    requires MaxInt(2, current - 1) > MinInt(total - 1, current + 1)
    ensures Layout(total, current) == [PageNumber(1)] + [Ellipsis] + [PageNumber(total)]
  {
  }

  lemma LayoutChained(total: int, current: int)
    requires total > MaxVisible
    ensures PagerShape(Layout(total, current), total)
    ensures |Layout(total, current)| <= 7
  {
    if MaxInt(2, current - 1) <= MinInt(total - 1, current + 1) {
      var head := LayoutHead(total, current);
      HeadChained(total, current);
      if current < total - 2 {
        ChainGap(head, total);
      } else {
        assert head + Gap(current < total - 2) == head;
        ChainNumber(head, total);
      }
    } else {
      EmptyRunLayout(total, current);
      ChainGap([PageNumber(1)], total);
    }
  }

  lemma LayoutShape(total: int, current: int)
    requires total > MaxVisible
    ensures PagerShape(Layout(total, current), total)
    ensures |Layout(total, current)| <= 7
    ensures forall n :: PageNumber(n) in Layout(total, current) <==>
      n == 1 || n == total || (1 <= n <= total && current - 1 <= n <= current + 1)
  {
    LayoutChained(total, current);
    forall n ensures PageNumber(n) in Layout(total, current) <==>
      n == 1 || n == total || (1 <= n <= total && current - 1 <= n <= current + 1)
    {
      LayoutMembers(total, current, n);
    }
  }

  /** The pushes of the short pager, one button per page. */
  method PushAllPages(total: int) returns (buttons: seq<PageButton>)
    requires total >= 1
    ensures buttons == NumberRun(1, total)
  {
    buttons := [];
    var i := 1;
    while i <= total
      invariant 1 <= i <= total + 1
      invariant buttons == NumberRun(1, i - 1)
    {
      buttons := buttons + [PageNumber(i)];
      i := i + 1;
    }
  }

  /** The pushes of the long pager: first page, gaps, the window around `current`, last page. */
  method PushWindowedPages(total: int, current: int) returns (buttons: seq<PageButton>)
    requires total > MaxVisible
    ensures buttons == Layout(total, current)
  {
    buttons := [PageNumber(1)];
    if current > 3 {
      buttons := buttons + [Ellipsis];
    }
    var start := MaxInt(2, current - 1);
    var end := MinInt(total - 1, current + 1);
    ghost var prefix := buttons;
    assert prefix == [PageNumber(1)] + Gap(current > 3);
    var i := start;
    while i <= end
      invariant start <= i && (i <= end + 1 || i == start)
      invariant buttons == prefix + NumberRun(start, i - 1)
    {
      ConcatAssociative(prefix, NumberRun(start, i - 1), [PageNumber(i)]);
      buttons := buttons + [PageNumber(i)];
      i := i + 1;
    }
    assert buttons == LayoutHead(total, current);
    if current < total - 2 {
      buttons := buttons + [Ellipsis];
    }
    ghost var body := buttons;
    assert body == LayoutHead(total, current) + Gap(current < total - 2);
    buttons := buttons + [PageNumber(total)];
  }

  /**
   * The pager's buttons for `total` pages with `current` the page shown:
   * none for a single page, every page up to five pages, and otherwise
   * page 1, the pages next to the current one, and the last page, with an
   * ellipsis standing exactly for each gap.
   */
  function Pager(total: int, current: int): (buttons: seq<PageButton>)
    ensures total <= 1 ==> buttons == []
    ensures 1 < total <= MaxVisible ==>
      |buttons| == total && forall k | 0 <= k < total :: buttons[k] == PageNumber(k + 1)
    ensures total > MaxVisible ==> PagerShape(buttons, total) && |buttons| <= 7
    ensures total > MaxVisible ==> forall n :: PageNumber(n) in buttons <==>
      n == 1 || n == total || (1 <= n <= total && current - 1 <= n <= current + 1)
    ensures total > 1 && 1 <= current <= total ==> PageNumber(current) in buttons
  {
    if total <= 1 then []
    else if total <= MaxVisible then RunMembers(1, total, current); NumberRun(1, total)
    else LayoutShape(total, current); Layout(total, current)
  }

  /** The page buttons under the listing, pushed one at a time. */
  method PagerButtons(total: int, current: int) returns (buttons: seq<PageButton>)
    ensures buttons == Pager(total, current)
  {
    buttons := [];
    if total > 1 {
      if total <= MaxVisible {
        buttons := PushAllPages(total);
      } else {
        buttons := PushWindowedPages(total, current);
      }
    }
  }
}
