/**
 * The analytics panel's numbers: album counts and average ratings per
 * decade and per genre, the top three of each, the genre ranking, and the
 * albums grouped by artist with the artist listing's pages. Charts and
 * markup are not modelled; what they are drawn from is.
 */
module Analytics {
  import opened Wrappers
  import opened Text
  import opened Tokens
  import opened Records
  import opened Scoring
  import opened Ordering
  import opened Listing
  import opened Trophies
  import opened Groups

  // ---------------------------------------------------------------------
  // Running totals

  /**
   * A total built with `+=` from 0: a number while every rating added is a
   * number. Adding a sentinel ("S" or "I") concatenates, and from then on
   * the total is a string.
   */
  datatype Total = Sum(value: real) | Concatenated

  function AddRating(t: Total, rating: Rating): Total {
    if t.Sum? && rating.Numeric? then Sum(t.value + rating.r) else Concatenated
  }

  /** The total of `ratings`, added in order from 0. */
  function TotalOf(ratings: seq<Rating>): Total {
    if ratings == [] then Sum(0.0) else AddRating(TotalOf(ratings[..|ratings| - 1]), ratings[|ratings| - 1])
  }

  lemma TotalOfSnoc(ratings: seq<Rating>, rating: Rating)
    ensures TotalOf(ratings + [rating]) == AddRating(TotalOf(ratings), rating)
  {
    assert (ratings + [rating])[..|ratings|] == ratings;
  }

  predicate AllInRange(ratings: seq<Rating>) {
    forall i | 0 <= i < |ratings| :: ratings[i].Numeric? && InUnitRange(ratings[i].r)
  }

  /** Numeric ratings in [1, 10] add up to a number between n and 10n. */
  lemma {:induction false} TotalBounds(ratings: seq<Rating>)
    requires AllInRange(ratings)
    ensures TotalOf(ratings).Sum?
    ensures |ratings| as real <= TotalOf(ratings).value <= 10.0 * |ratings| as real
  {
    if ratings != [] {
      var n := |ratings| - 1;
      assert forall i | 0 <= i < n :: ratings[..n][i] == ratings[i];
      TotalBounds(ratings[..n]);
    }
  }

  /** A single sentinel anywhere turns the total into a string. */
  lemma {:induction false} SentinelPoisons(ratings: seq<Rating>, i: nat)
    requires i < |ratings| && !ratings[i].Numeric?
    ensures TotalOf(ratings).Concatenated?
  {
    var n := |ratings| - 1;
    if i < n {
      assert ratings[..n][i] == ratings[i];
      SentinelPoisons(ratings[..n], i);
    }
  }

  /**
   * `+(total / count).toFixed(2)`: the mean rounded to hundredths. A string
   * total divides to NaN, and so does 0 / 0.
   */
  function Mean(t: Total, count: nat): Parsed<real> {
    if t.Sum? && count > 0 then Num(Round2(t.value / count as real)) else NaN
  }

  /** The rounded mean of ratings in [1, 10] is a number in [1, 10]. */
  lemma MeanInRange(ratings: seq<Rating>)
    requires ratings != [] && AllInRange(ratings)
    ensures Mean(TotalOf(ratings), |ratings|).Num?
    ensures InUnitRange(Mean(TotalOf(ratings), |ratings|).value)
  {
    TotalBounds(ratings);
    MeanBounds(TotalOf(ratings).value, |ratings|);
    RoundingAtEdges(TotalOf(ratings).value / |ratings| as real);
  }

  /** `b.avgRating - a.avgRating` as a comparator: higher first, NaN a tie. */
  function AvgDesc(x: Parsed<real>, y: Parsed<real>): int {
    if x.Num? && y.Num? then (if x.value > y.value then -1 else if x.value < y.value then 1 else 0) else 0
  }

  // ---------------------------------------------------------------------
  // The count-and-total dictionaries of the decade and genre views

  datatype Stat = Stat(count: nat, total: Total)

  /** What the dictionary holds for grouped ratings: each group's count and total. */
  function Tally(gs: seq<(string, seq<Rating>)>): seq<(string, Stat)> {
    seq(|gs|, k requires 0 <= k < |gs| => (gs[k].0, Stat(|gs[k].1|, TotalOf(gs[k].1))))
  }

  /**
   * One step of the loop: open the group with count 0 and total 0 when it
   * is new, then count the rating and add it to the total.
   */
  function Bump(stats: seq<(string, Stat)>, g: string, rating: Rating): seq<(string, Stat)> {
    var k := GroupIndex(stats, g);
    var grown := if k == |stats| then stats + [(g, Stat(0, Sum(0.0)))] else stats;
    grown[k := (g, Stat(grown[k].1.count + 1, AddRating(grown[k].1.total, rating)))]
  }

  lemma TallySnoc(gs: seq<(string, seq<Rating>)>, g: string, v: seq<Rating>)
    ensures Tally(gs + [(g, v)]) == Tally(gs) + [(g, Stat(|v|, TotalOf(v)))]
  {
    var lhs, rhs := Tally(gs + [(g, v)]), Tally(gs) + [(g, Stat(|v|, TotalOf(v)))];
    forall i | 0 <= i < |lhs| ensures lhs[i] == rhs[i] {
      if i < |gs| {
        assert (gs + [(g, v)])[i] == gs[i];
      }
    }
  }

  lemma TallyUpdate(gs: seq<(string, seq<Rating>)>, k: nat, v: seq<Rating>)
    requires k < |gs|
    ensures Tally(gs[k := (gs[k].0, v)]) == Tally(gs)[k := (gs[k].0, Stat(|v|, TotalOf(v)))]
  {
  }

  /** Bumping the tally is tallying the grouping with one more member. */
  lemma TallyBucket(gs: seq<(string, seq<Rating>)>, g: string, rating: Rating)
    ensures Tally(Bucket(gs, g, rating)) == Bump(Tally(gs), g, rating)
  {
    SameNamesSameIndex(gs, Tally(gs), g);
    var k := GroupIndex(gs, g);
    if k == |gs| {
      TallySnoc(gs, g, [rating]);
      TotalOfSnoc([], rating);
      assert [] + [rating] == [rating];
    } else {
      TallyUpdate(gs, k, gs[k].1 + [rating]);
      TotalOfSnoc(gs[k].1, rating);
    }
  }

  /** The counting loop of `getDecadeStats` and `getTopRatedGenres`. */
  method TallyRatings(items: seq<(Option<string>, Rating)>) returns (stats: seq<(string, Stat)>)
    ensures stats == Tally(GroupBy(items))
  {
    stats := [];
    var i := 0;
    while i < |items|
      invariant 0 <= i <= |items|
      invariant stats == Tally(GroupBy(items[..i]))
    {
      assert items[..i + 1] == items[..i] + [items[i]];
      GroupBySnoc(items[..i], items[i]);
      var (group, rating) := items[i];
      if group.Some? {
        var g := group.value;
        TallyBucket(GroupBy(items[..i]), g, rating);
        var k := GroupIndex(stats, g);
        if k == |stats| {
          stats := stats + [(g, Stat(0, Sum(0.0)))];
        }
        stats := stats[k := (g, Stat(stats[k].1.count + 1, AddRating(stats[k].1.total, rating)))];
      }
      i := i + 1;
    }
    assert items[..|items|] == items;
  }

  /** An entry of the finished dictionary: the count and the rounded average. */
  datatype Summary = Summary(count: nat, avgRating: Parsed<real>)

  function Summarized(stats: seq<(string, Stat)>): seq<(string, Summary)> {
    seq(|stats|, k requires 0 <= k < |stats| => (stats[k].0, Summary(stats[k].1.count, Mean(stats[k].1.total, stats[k].1.count))))
  }

  /** The second loop: each total is replaced by the rounded average. */
  method Summaries(stats: seq<(string, Stat)>) returns (summary: seq<(string, Summary)>)
    ensures summary == Summarized(stats)
  {
    summary := [];
    var i := 0;
    while i < |stats|
      invariant 0 <= i <= |stats| && |summary| == i
      invariant forall k | 0 <= k < i :: summary[k] == Summarized(stats)[k]
    {
      var (g, st) := stats[i];
      summary := summary + [(g, Summary(st.count, Mean(st.total, st.count)))];
      i := i + 1;
    }
  }

  /** The sum of the counts. */
  function SumCounts(summary: seq<(string, Summary)>): nat {
    if summary == [] then 0 else SumCounts(summary[..|summary| - 1]) + summary[|summary| - 1].1.count
  }

  lemma {:induction false} SumCountsOfGroups(gs: seq<(string, seq<Rating>)>)
    ensures SumCounts(Summarized(Tally(gs))) == MemberCount(gs)
  {
    if gs != [] {
      var n := |gs| - 1;
      assert Summarized(Tally(gs))[..n] == Summarized(Tally(gs[..n]));
      SumCountsOfGroups(gs[..n]);
    }
  }

  /** Row `k` of the finished dictionary describes group `k`. */
  lemma SummarizedGroups(gs: seq<(string, seq<Rating>)>)
    ensures var s := Summarized(Tally(gs));
      |s| == |gs| &&
      forall k | 0 <= k < |gs| ::
        s[k].0 == gs[k].0 && s[k].1 == Summary(|gs[k].1|, Mean(TotalOf(gs[k].1), |gs[k].1|))
  {
  }

  /**
   * The finished dictionary of grouped ratings: distinct names, a row
   * exactly for each name some item carries, each row counting its items
   * (at least one) with their rounded mean, and the counts adding up to
   * the number of items that have a group.
   */
  lemma SummaryOfGroups(items: seq<(Option<string>, Rating)>)
    ensures var s := Summarized(Tally(GroupBy(items)));
      DistinctNames(s) &&
      (forall g :: GroupIndex(s, g) < |s| <==> Members(items, g) != []) &&
      (forall k | 0 <= k < |s| ::
        s[k].1.count == |Members(items, s[k].0)| && s[k].1.count >= 1 &&
        s[k].1.avgRating == Mean(TotalOf(Members(items, s[k].0)), s[k].1.count)) &&
      SumCounts(s) == CountGrouped(items)
  {
    var gs := GroupBy(items);
    var s := Summarized(Tally(gs));
    GroupByIsGrouping(items);
    SumCountsOfGroups(gs);
    SummarizedGroups(gs);
    forall g ensures GroupIndex(s, g) == GroupIndex(gs, g) {
      SameNamesSameIndex(gs, s, g);
    }
    forall k | 0 <= k < |s| ensures s[k].1.count >= 1 {
      GroupsNonEmpty(items, gs, k);
    }
  }

  /** With every rating in [1, 10], every average is a number in [1, 10]. */
  lemma AveragesInRange(items: seq<(Option<string>, Rating)>, g: string)
    requires forall j | 0 <= j < |items| :: items[j].1.Numeric? && InUnitRange(items[j].1.r)
    requires Members(items, g) != []
    ensures Mean(TotalOf(Members(items, g)), |Members(items, g)|).Num?
    ensures InUnitRange(Mean(TotalOf(Members(items, g)), |Members(items, g)|).value)
  {
    forall i | 0 <= i < |Members(items, g)|
      ensures Members(items, g)[i].Numeric? && InUnitRange(Members(items, g)[i].r)
    {
      var j := MemberSource(items, g, i);
    }
    MeanInRange(Members(items, g));
  }

  /** A group with a sentinel rating among its items averages to NaN. */
  lemma SentinelAverageIsNaN(items: seq<(Option<string>, Rating)>, g: string, j: nat)
    requires j < |items| && items[j].0 == Some(g) && !items[j].1.Numeric?
    ensures Mean(TotalOf(Members(items, g)), |Members(items, g)|) == NaN
  {
    var i := MemberAt(items, g, j);
    SentinelPoisons(Members(items, g), i);
  }

  // ---------------------------------------------------------------------
  // Decades

  /**
   * The decade a release date counts under: the leftmost word-bounded
   * 19xx / 20xx year, when it is at most 2025.
   */
  function DecadeOf(releaseDate: string): (d: Option<string>)
    ensures d.Some? <==> ExtractYear(releaseDate).Some? && ExtractYear(releaseDate).value <= 2025
    ensures d.Some? ==> d.value == DecadeLabel(ExtractYear(releaseDate).value)
  {
    match ExtractYear(releaseDate)
    case Some(year) => if year <= 2025 then Some(DecadeLabel(year)) else None
    case None => None
  }

  /** "1994-03-01" counts under "1990s". */
  lemma NinetyFourCountsAsNineties()
    ensures DecadeOf("1994-03-01") == Some("1990s")
  {
    NinetyFourIsNineties();
  }

  /** A year after 2025 is not counted. */
  lemma LateYearNotCounted()
    ensures DecadeOf("2026").None?
  {
    var s := "2026";
    assert YearMatchAt(s, 0);
    assert forall q | 0 <= q < 0 :: !YearMatchAt(s, q);
    assert s[0..4] == "2026";
    assert ParseDigits("2026") == 2026 by {
      assert "2026"[..3] == "202" && "202"[..2] == "20" && "20"[..1] == "2";
    }
  }

  function DecadeItems(ratings: seq<Entry>): (items: seq<(Option<string>, Rating)>)
    ensures |items| == |ratings|
    ensures forall j | 0 <= j < |ratings| :: items[j] == (DecadeOf(ratings[j].1.releaseDate), ratings[j].1.rating)
  {
    seq(|ratings|, j requires 0 <= j < |ratings| => (DecadeOf(ratings[j].1.releaseDate), ratings[j].1.rating))
  }

  /** What `getDecadeStats(ratings)` returns, in key order. */
  function DecadeSummary(ratings: seq<Entry>): seq<(string, Summary)> {
    Summarized(Tally(GroupBy(DecadeItems(ratings))))
  }

  /** `getDecadeStats`. */
  method DecadeStats(ratings: seq<Entry>) returns (stats: seq<(string, Summary)>)
    ensures stats == DecadeSummary(ratings)
  {
    var counted := TallyRatings(DecadeItems(ratings));
    stats := Summaries(counted);
  }

  /** The records counted under a decade: exactly those whose release date falls in it. */
  lemma DecadeMembers(ratings: seq<Entry>, d: string)
    ensures Members(DecadeItems(ratings), d) != [] <==>
      exists j | 0 <= j < |ratings| :: DecadeOf(ratings[j].1.releaseDate) == Some(d)
  {
    MembersEmptyIff(DecadeItems(ratings), d);
  }

  /**
   * `getDecadeStats` lists each decade some record falls in, once, with
   * the number of its records (at least one) and their rounded average;
   * the counts add up to the number of records with a decade.
   */
  lemma DecadeStatsSpec(ratings: seq<Entry>)
    ensures var s := DecadeSummary(ratings);
      DistinctNames(s) &&
      (forall d :: GroupIndex(s, d) < |s| <==>
        exists j | 0 <= j < |ratings| :: DecadeOf(ratings[j].1.releaseDate) == Some(d)) &&
      (forall k | 0 <= k < |s| ::
        s[k].1.count == |Members(DecadeItems(ratings), s[k].0)| && s[k].1.count >= 1 &&
        s[k].1.avgRating == Mean(TotalOf(Members(DecadeItems(ratings), s[k].0)), s[k].1.count)) &&
      SumCounts(s) == CountGrouped(DecadeItems(ratings))
  {
    SummaryOfGroups(DecadeItems(ratings));
    forall d ensures Members(DecadeItems(ratings), d) != [] <==>
      exists j | 0 <= j < |ratings| :: DecadeOf(ratings[j].1.releaseDate) == Some(d)
    {
      DecadeMembers(ratings, d);
    }
  }

  // ---------------------------------------------------------------------
  // Genres

  /** `album.genre?.trim() || "Unknown"`. */
  function GenreText(genre: string): (t: string)
    ensures t != []
  {
    if Trim(genre) == "" then "Unknown" else Trim(genre)
  }

  /** `capitalizeFirst(album.genre?.trim() || "Unknown")`: the genre a record counts under. */
  function GenreName(genre: string): string {
    CapitalizeFirst(Some(GenreText(genre)))
  }

  /** Genres that differ only in case (after trimming) count together, and only those. */
  lemma GenreNameCaseInsensitive(x: string, y: string)
    ensures GenreName(x) == GenreName(y) <==> LowerStr(GenreText(x)) == LowerStr(GenreText(y))
  {
    CapitalizeFirstCaseInsensitive(GenreText(x), GenreText(y));
  }

  function GenreItems(ratings: seq<Entry>): (items: seq<(Option<string>, Rating)>)
    ensures |items| == |ratings|
    ensures forall j | 0 <= j < |ratings| :: items[j] == (Some(GenreName(ratings[j].1.genre)), ratings[j].1.rating)
  {
    seq(|ratings|, j requires 0 <= j < |ratings| => (Some(GenreName(ratings[j].1.genre)), ratings[j].1.rating))
  }

  /** The genre dictionary of `getTopRatedGenres` and `renderGenreBreakdown`, with averages. */
  function GenreSummary(ratings: seq<Entry>): seq<(string, Summary)> {
    Summarized(Tally(GroupBy(GenreItems(ratings))))
  }

  /**
   * The genre dictionary lists each genre name some record has, once, with
   * its count (at least one) and rounded average; every record is counted.
   */
  lemma GenreStatsSpec(ratings: seq<Entry>)
    ensures var s := GenreSummary(ratings);
      DistinctNames(s) &&
      (forall g :: GroupIndex(s, g) < |s| <==>
        exists j | 0 <= j < |ratings| :: GenreName(ratings[j].1.genre) == g) &&
      (forall k | 0 <= k < |s| ::
        s[k].1.count == |Members(GenreItems(ratings), s[k].0)| && s[k].1.count >= 1 &&
        s[k].1.avgRating == Mean(TotalOf(Members(GenreItems(ratings), s[k].0)), s[k].1.count)) &&
      SumCounts(s) == |ratings|
  {
    var items := GenreItems(ratings);
    SummaryOfGroups(items);
    AllGrouped(items);
    forall g ensures Members(items, g) != [] <==> exists j | 0 <= j < |ratings| :: GenreName(ratings[j].1.genre) == g {
      MembersEmptyIff(items, g);
    }
  }

  // ---------------------------------------------------------------------
  // Top three and the genre ranking

  function ByAvgDesc(a: (string, Summary), b: (string, Summary)): int {
    AvgDesc(a.1.avgRating, b.1.avgRating)
  }

  /**
   * `entries.sort((a, b) => b.avgRating - a.avgRating).slice(0, 3)`: three
   * rows of the dictionary, or all of them when it has fewer.
   */
  function TopRated(summary: seq<(string, Summary)>): (top: seq<(string, Summary)>)
    ensures |top| == (if |summary| < 3 then |summary| else 3)
    ensures multiset(top) <= multiset(summary)
  {
    SortByPermutation(ByAvgDesc, summary);
    TakeSubMultiset(SortBy(ByAvgDesc, summary), 3);
    Take(SortBy(ByAvgDesc, summary), 3)
  }

  predicate AllAveraged(summary: seq<(string, Summary)>) {
    forall k | 0 <= k < |summary| :: summary[k].1.avgRating.Num?
  }

  lemma AvgDescPreorder(summary: seq<(string, Summary)>)
    requires AllAveraged(summary)
    ensures TotalPreorderOn(ByAvgDesc, summary)
  {
    forall a | a in summary ensures a.1.avgRating.Num? {
      var k :| 0 <= k < |summary| && summary[k] == a;
    }
  }

  lemma SortedStaysAveraged(cmp: ((string, Summary), (string, Summary)) -> int, summary: seq<(string, Summary)>)
    requires AllAveraged(summary)
    ensures AllAveraged(SortBy(cmp, summary))
  {
    var r := SortBy(cmp, summary);
    SortByMembers(cmp, summary, summary);
    forall i | 0 <= i < |r| ensures r[i].1.avgRating.Num? {
      assert r[i] in r;
      var k :| 0 <= k < |summary| && summary[k] == r[i];
    }
  }

  /** Sorting by average puts the highest average first. */
  lemma AvgDescOrdered(summary: seq<(string, Summary)>)
    requires AllAveraged(summary)
    ensures AllAveraged(SortBy(ByAvgDesc, summary))
    ensures var r := SortBy(ByAvgDesc, summary);
      forall i, j | 0 <= i < j < |r| :: r[i].1.avgRating.value >= r[j].1.avgRating.value
  {
    SortedStaysAveraged(ByAvgDesc, summary);
    AvgDescPreorder(summary);
    SortBySorted(ByAvgDesc, summary);
  }

  /** A row the top three leave out is beaten by all of them. */
  lemma TopBeatsRest(summary: seq<(string, Summary)>, i: nat, j: nat)
    requires AllAveraged(summary)
    requires i < |TopRated(summary)| && j < |summary| && summary[j] !in TopRated(summary)
    ensures AllAveraged(TopRated(summary))
    ensures TopRated(summary)[i].1.avgRating.value >= summary[j].1.avgRating.value
  {
    var sorted := SortBy(ByAvgDesc, summary);
    var top := TopRated(summary);
    SortByPermutation(ByAvgDesc, summary);
    AvgDescOrdered(summary);
    assert summary[j] in multiset(sorted);
    var q :| 0 <= q < |sorted| && sorted[q] == summary[j];
    assert top[i] == sorted[i];
  }

  /**
   * The top three: at most three rows taken from the dictionary (fewer
   * only when it has fewer), highest average first, none of them beaten
   * by a row left out.
   */
  lemma TopRatedSpec(summary: seq<(string, Summary)>)
    requires AllAveraged(summary)
    ensures var top := TopRated(summary);
      |top| == (if |summary| < 3 then |summary| else 3) &&
      multiset(top) <= multiset(summary) &&
      AllAveraged(top) &&
      (forall i, j | 0 <= i < j < |top| :: top[i].1.avgRating.value >= top[j].1.avgRating.value) &&
      (forall i, j | 0 <= i < |top| && 0 <= j < |summary| && summary[j] !in top ::
        top[i].1.avgRating.value >= summary[j].1.avgRating.value)
  {
    var sorted := SortBy(ByAvgDesc, summary);
    var top := TopRated(summary);
    SortByPermutation(ByAvgDesc, summary);
    TakeSubMultiset(sorted, 3);
    AvgDescOrdered(summary);
    forall i | 0 <= i < |top| ensures top[i] == sorted[i] {
    }
    forall i, j | 0 <= i < |top| && 0 <= j < |summary| && summary[j] !in top
      ensures top[i].1.avgRating.value >= summary[j].1.avgRating.value
    {
      TopBeatsRest(summary, i, j);
    }
  }

  /** `getTopRatedDecades`. */
  method TopRatedDecades(ratings: seq<Entry>) returns (top: seq<(string, Summary)>)
    ensures top == TopRated(DecadeSummary(ratings))
  {
    var stats := DecadeStats(ratings);
    top := TopRated(stats);
  }

  /** `getTopRatedGenres`. */
  method TopRatedGenres(ratings: seq<Entry>) returns (top: seq<(string, Summary)>)
    ensures top == TopRated(GenreSummary(ratings))
  {
    var counted := TallyRatings(GenreItems(ratings));
    var stats := Summaries(counted);
    top := TopRated(stats);
  }

  /** `b.count - a.count || b.avgRating - a.avgRating`. */
  function ByCountThenAvg(a: (string, Summary), b: (string, Summary)): int {
    if a.1.count > b.1.count then -1
    else if a.1.count < b.1.count then 1
    else AvgDesc(a.1.avgRating, b.1.avgRating)
  }

  /** The genre breakdown's order: a reordering of the dictionary. */
  function GenreRanking(summary: seq<(string, Summary)>): (r: seq<(string, Summary)>)
    ensures multiset(r) == multiset(summary) && |r| == |summary|
  {
    SortByPermutation(ByCountThenAvg, summary);
    SortBy(ByCountThenAvg, summary)
  }

  lemma CountThenAvgPreorder(summary: seq<(string, Summary)>)
    requires AllAveraged(summary)
    ensures TotalPreorderOn(ByCountThenAvg, summary)
  {
    forall a | a in summary ensures a.1.avgRating.Num? {
      var k :| 0 <= k < |summary| && summary[k] == a;
    }
  }

  /**
   * The genre ranking reorders the dictionary so that larger genres come
   * first and, among genres of the same size, higher averages.
   */
  lemma GenreRankingSpec(summary: seq<(string, Summary)>)
    requires AllAveraged(summary)
    ensures var r := GenreRanking(summary);
      multiset(r) == multiset(summary) && AllAveraged(r) &&
      forall i, j | 0 <= i < j < |r| ::
        r[i].1.count > r[j].1.count ||
        (r[i].1.count == r[j].1.count && r[i].1.avgRating.value >= r[j].1.avgRating.value)
  {
    SortByPermutation(ByCountThenAvg, summary);
    SortedStaysAveraged(ByCountThenAvg, summary);
    CountThenAvgPreorder(summary);
    SortBySorted(ByCountThenAvg, summary);
  }

  /** The ranking `renderGenreBreakdown` draws. */
  method GenreBreakdown(ratings: seq<Entry>) returns (ranking: seq<(string, Summary)>)
    ensures ranking == GenreRanking(GenreSummary(ratings))
  {
    var counted := TallyRatings(GenreItems(ratings));
    var stats := Summaries(counted);
    ranking := GenreRanking(stats);
  }

  // ---------------------------------------------------------------------
  // Albums by artist

  /** One album as the artist breakdown lists it. */
  datatype ArtistAlbum = ArtistAlbum(name: string, rating: Rating, releaseDate: string, genre: string, spotifyUrl: string)

  /**
   * The album pushed for a record, reading the link the save path wrote:
   * its name normalises back to the record's key, and it keeps the record's
   * rating, date, genre and Spotify link.
   */
  function ArtistAlbumOf(e: Entry): (a: ArtistAlbum)
    ensures NormalizeAlbumName(a.name) == NormalizeAlbumName(e.0)
    ensures a.rating == e.1.rating && a.releaseDate == e.1.releaseDate && a.genre == e.1.genre
    ensures a.spotifyUrl == e.1.spotifyURL
  {
    SavedKeyIsLookedUpKey(e.0);
    ArtistAlbum(CapitalizeAlbumName(e.0), e.1.rating, e.1.releaseDate, e.1.genre, e.1.spotifyURL)
  }

  /**
   * The album pushed for a record, as written: it copies `album.spotifyUrl`,
   * a property the save path never writes (it writes `spotifyURL`), so the
   * link is always missing ("" stands for `undefined`; both are falsy).
   * It differs from the intended album in the link alone, and only when
   * the record has one.
   */
  function ArtistAlbumAsWritten(e: Entry): (a: ArtistAlbum)
    ensures a == ArtistAlbumOf(e).(spotifyUrl := "")
    ensures a == ArtistAlbumOf(e) <==> e.1.spotifyURL == ""
  {
    ArtistAlbum(CapitalizeAlbumName(e.0), e.1.rating, e.1.releaseDate, e.1.genre, "")
  }

  /** The running dictionary entry: the albums pushed so far and their total. */
  datatype ArtistAcc = ArtistAcc(albums: seq<ArtistAlbum>, total: Total)

  function RatingsOf(albums: seq<ArtistAlbum>): seq<Rating> {
    seq(|albums|, i requires 0 <= i < |albums| => albums[i].rating)
  }

  function Accumulated(gs: seq<(string, seq<ArtistAlbum>)>): seq<(string, ArtistAcc)> {
    seq(|gs|, k requires 0 <= k < |gs| => (gs[k].0, ArtistAcc(gs[k].1, TotalOf(RatingsOf(gs[k].1)))))
  }

  /**
   * One step of the loop: open the artist with no albums and total 0 when
   * it is new, then push the album and add its rating to the total.
   */
  function Push(grouped: seq<(string, ArtistAcc)>, artist: string, album: ArtistAlbum): seq<(string, ArtistAcc)> {
    var k := GroupIndex(grouped, artist);
    var grown := if k == |grouped| then grouped + [(artist, ArtistAcc([], Sum(0.0)))] else grouped;
    grown[k := (artist, ArtistAcc(grown[k].1.albums + [album], AddRating(grown[k].1.total, album.rating)))]
  }

  lemma AccumulatedSnoc(gs: seq<(string, seq<ArtistAlbum>)>, g: string, v: seq<ArtistAlbum>)
    ensures Accumulated(gs + [(g, v)]) == Accumulated(gs) + [(g, ArtistAcc(v, TotalOf(RatingsOf(v))))]
  {
    var lhs, rhs := Accumulated(gs + [(g, v)]), Accumulated(gs) + [(g, ArtistAcc(v, TotalOf(RatingsOf(v))))];
    forall i | 0 <= i < |lhs| ensures lhs[i] == rhs[i] {
      if i < |gs| {
        assert (gs + [(g, v)])[i] == gs[i];
      }
    }
  }

  lemma AccumulatedUpdate(gs: seq<(string, seq<ArtistAlbum>)>, k: nat, v: seq<ArtistAlbum>)
    requires k < |gs|
    ensures Accumulated(gs[k := (gs[k].0, v)]) == Accumulated(gs)[k := (gs[k].0, ArtistAcc(v, TotalOf(RatingsOf(v))))]
  {
  }

  lemma PushNew(grouped: seq<(string, ArtistAcc)>, artist: string, album: ArtistAlbum)
    requires GroupIndex(grouped, artist) == |grouped|
    ensures Push(grouped, artist, album) == grouped + [(artist, ArtistAcc([album], AddRating(Sum(0.0), album.rating)))]
  {
    assert [] + [album] == [album];
  }

  lemma PushOld(grouped: seq<(string, ArtistAcc)>, artist: string, album: ArtistAlbum)
    requires GroupIndex(grouped, artist) < |grouped|
    ensures var k := GroupIndex(grouped, artist);
      Push(grouped, artist, album) ==
        grouped[k := (artist, ArtistAcc(grouped[k].1.albums + [album], AddRating(grouped[k].1.total, album.rating)))]
  {
  }

  /** Pushing onto the dictionary is accumulating the grouping with one more member. */
  lemma AccumulateBucket(gs: seq<(string, seq<ArtistAlbum>)>, artist: string, album: ArtistAlbum)
    ensures Accumulated(Bucket(gs, artist, album)) == Push(Accumulated(gs), artist, album)
  {
    SameNamesSameIndex(gs, Accumulated(gs), artist);
    var k := GroupIndex(gs, artist);
    if k == |gs| {
      AccumulatedSnoc(gs, artist, [album]);
      PushNew(Accumulated(gs), artist, album);
      assert RatingsOf([album]) == [album.rating] == [] + [album.rating];
      TotalOfSnoc([], album.rating);
    } else {
      AccumulatedUpdate(gs, k, gs[k].1 + [album]);
      PushOld(Accumulated(gs), artist, album);
      assert RatingsOf(gs[k].1 + [album]) == RatingsOf(gs[k].1) + [album.rating];
      TotalOfSnoc(RatingsOf(gs[k].1), album.rating);
    }
  }

  /** The first loop of `groupByArtist`. */
  method CollectArtists(items: seq<(Option<string>, ArtistAlbum)>) returns (grouped: seq<(string, ArtistAcc)>)
    ensures grouped == Accumulated(GroupBy(items))
  {
    grouped := [];
    var i := 0;
    while i < |items|
      invariant 0 <= i <= |items|
      invariant grouped == Accumulated(GroupBy(items[..i]))
    {
      assert items[..i + 1] == items[..i] + [items[i]];
      GroupBySnoc(items[..i], items[i]);
      var (artist, album) := items[i];
      if artist.Some? {
        var a := artist.value;
        AccumulateBucket(GroupBy(items[..i]), a, album);
        var k := GroupIndex(grouped, a);
        if k == |grouped| {
          grouped := grouped + [(a, ArtistAcc([], Sum(0.0)))];
        }
        grouped := grouped[k := (a, ArtistAcc(grouped[k].1.albums + [album], AddRating(grouped[k].1.total, album.rating)))];
      }
      i := i + 1;
    }
    assert items[..|items|] == items;
  }

  /** An artist of the breakdown: the albums by date, the total and the rounded average. */
  datatype ArtistSummary = ArtistSummary(albums: seq<ArtistAlbum>, total: Total, avgRating: Parsed<real>)

  /** `new Date(a.releaseDate || 0) - new Date(b.releaseDate || 0)`. */
  function ByReleaseDate(a: ArtistAlbum, b: ArtistAlbum): int {
    DateCompare(DateKey(a.releaseDate), DateKey(b.releaseDate))
  }

  function Finished(grouped: seq<(string, ArtistAcc)>): seq<(string, ArtistSummary)> {
    seq(|grouped|, k requires 0 <= k < |grouped| =>
      (grouped[k].0, ArtistSummary(SortBy(ByReleaseDate, grouped[k].1.albums), grouped[k].1.total,
                                   Mean(grouped[k].1.total, |grouped[k].1.albums|))))
  }

  /** The second loop: each artist gets its average and its albums sorted by date. */
  method FinishArtists(grouped: seq<(string, ArtistAcc)>) returns (out: seq<(string, ArtistSummary)>)
    ensures out == Finished(grouped)
  {
    out := [];
    var i := 0;
    while i < |grouped|
      invariant 0 <= i <= |grouped| && |out| == i
      invariant forall k | 0 <= k < i :: out[k] == Finished(grouped)[k]
    {
      var (artist, acc) := grouped[i];
      var count := |acc.albums|;
      out := out + [(artist, ArtistSummary(SortBy(ByReleaseDate, acc.albums), acc.total, Mean(acc.total, count)))];
      i := i + 1;
    }
  }

  /** The breakdown of (artist, album) items taken in order. */
  function Breakdown(items: seq<(Option<string>, ArtistAlbum)>): seq<(string, ArtistSummary)> {
    Finished(Accumulated(GroupBy(items)))
  }

  /** The (artist, album) items `groupByArtist` pushes, one per record in key order. */
  function ArtistItems(ratings: seq<Entry>): (items: seq<(Option<string>, ArtistAlbum)>)
    ensures |items| == |ratings|
    ensures forall j | 0 <= j < |ratings| ::
      items[j] == (Some(ArtistGroup(ratings[j].1.artist)), ArtistAlbumAsWritten(ratings[j]))
  {
    seq(|ratings|, j requires 0 <= j < |ratings| => (Some(ArtistGroup(ratings[j].1.artist)), ArtistAlbumAsWritten(ratings[j])))
  }

  /** What `groupByArtist(ratings)` returns, in key order. */
  function ArtistBreakdown(ratings: seq<Entry>): seq<(string, ArtistSummary)> {
    Breakdown(ArtistItems(ratings))
  }

  /** `groupByArtist`. */
  method GroupByArtist(ratings: seq<Entry>) returns (grouped: seq<(string, ArtistSummary)>)
    ensures grouped == ArtistBreakdown(ratings)
  {
    var collected := CollectArtists(ArtistItems(ratings));
    grouped := FinishArtists(collected);
  }

  /** The items with each album carrying the link its record was saved with. */
  function LinkedArtistItems(ratings: seq<Entry>): (items: seq<(Option<string>, ArtistAlbum)>)
    ensures |items| == |ratings|
    ensures forall j | 0 <= j < |ratings| ::
      items[j] == (Some(ArtistGroup(ratings[j].1.artist)), ArtistAlbumOf(ratings[j]))
  {
    seq(|ratings|, j requires 0 <= j < |ratings| => (Some(ArtistGroup(ratings[j].1.artist)), ArtistAlbumOf(ratings[j])))
  }

  /** The breakdown `groupByArtist` evidently intends, with the saved links. */
  function LinkedArtistBreakdown(ratings: seq<Entry>): seq<(string, ArtistSummary)> {
    Breakdown(LinkedArtistItems(ratings))
  }

  /** Row `k` of the breakdown describes group `k`. */
  lemma FinishedGroups(gs: seq<(string, seq<ArtistAlbum>)>)
    ensures var s := Finished(Accumulated(gs));
      |s| == |gs| &&
      forall k | 0 <= k < |gs| ::
        s[k].0 == gs[k].0 &&
        s[k].1 == ArtistSummary(SortBy(ByReleaseDate, gs[k].1), TotalOf(RatingsOf(gs[k].1)),
                                Mean(TotalOf(RatingsOf(gs[k].1)), |gs[k].1|))
  {
  }

  /** The number of albums listed over all artists. */
  function AlbumCount(s: seq<(string, ArtistSummary)>): nat {
    if s == [] then 0 else AlbumCount(s[..|s| - 1]) + |s[|s| - 1].1.albums|
  }

  /** Rows of the same sizes hold the same number of albums. */
  lemma {:induction false} AlbumCountOfSizes(s: seq<(string, ArtistSummary)>, gs: seq<(string, seq<ArtistAlbum>)>)
    requires |s| == |gs| && forall k | 0 <= k < |s| :: |s[k].1.albums| == |gs[k].1|
    ensures AlbumCount(s) == MemberCount(gs)
  {
    if s != [] {
      var n := |s| - 1;
      assert forall k | 0 <= k < n :: s[..n][k] == s[k] && gs[..n][k] == gs[k];
      AlbumCountOfSizes(s[..n], gs[..n]);
    }
  }

  lemma AlbumCountOfGroups(gs: seq<(string, seq<ArtistAlbum>)>)
    ensures AlbumCount(Finished(Accumulated(gs))) == MemberCount(gs)
  {
    var s := Finished(Accumulated(gs));
    forall k | 0 <= k < |s| ensures |s[k].1.albums| == |gs[k].1| {
      SortByPermutation(ByReleaseDate, gs[k].1);
    }
    AlbumCountOfSizes(s, gs);
  }

  /** Row `k` lists the members of its group, reordered. */
  lemma BreakdownRow(items: seq<(Option<string>, ArtistAlbum)>, k: nat)
    requires k < |Breakdown(items)|
    ensures var s := Breakdown(items);
      s[k].1.albums != [] &&
      multiset(s[k].1.albums) == multiset(Members(items, s[k].0)) &&
      s[k].1.avgRating == Mean(TotalOf(RatingsOf(Members(items, s[k].0))), |s[k].1.albums|)
  {
    var gs := GroupBy(items);
    GroupByIsGrouping(items);
    FinishedGroups(gs);
    GroupsNonEmpty(items, gs, k);
    SortByPermutation(ByReleaseDate, gs[k].1);
  }

  /**
   * The breakdown of items that all have an artist: each artist once, a
   * row exactly for the artists the items name, each row its items
   * reordered (never empty) with their rounded mean, and every item
   * listed.
   */
  lemma BreakdownSpec(items: seq<(Option<string>, ArtistAlbum)>)
    requires forall j | 0 <= j < |items| :: items[j].0.Some?
    ensures var s := Breakdown(items);
      DistinctNames(s) &&
      (forall a :: GroupIndex(s, a) < |s| <==> Members(items, a) != []) &&
      (forall k | 0 <= k < |s| ::
        s[k].1.albums != [] &&
        multiset(s[k].1.albums) == multiset(Members(items, s[k].0)) &&
        s[k].1.avgRating == Mean(TotalOf(RatingsOf(Members(items, s[k].0))), |s[k].1.albums|)) &&
      AlbumCount(s) == |items|
  {
    var gs := GroupBy(items);
    var s := Breakdown(items);
    GroupByIsGrouping(items);
    FinishedGroups(gs);
    AlbumCountOfGroups(gs);
    AllGrouped(items);
    forall a ensures GroupIndex(s, a) == GroupIndex(gs, a) {
      SameNamesSameIndex(gs, s, a);
    }
    forall k | 0 <= k < |s| ensures
      s[k].1.albums != [] &&
      multiset(s[k].1.albums) == multiset(Members(items, s[k].0)) &&
      s[k].1.avgRating == Mean(TotalOf(RatingsOf(Members(items, s[k].0))), |s[k].1.albums|)
    {
      BreakdownRow(items, k);
    }
  }

  /** Each album of the date order is one of the albums sorted. */
  lemma SortedAlbumSource(albums: seq<ArtistAlbum>, i: nat) returns (m: nat)
    requires i < |SortBy(ByReleaseDate, albums)|
    ensures m < |albums| && albums[m] == SortBy(ByReleaseDate, albums)[i]
  {
    SortByPermutation(ByReleaseDate, albums);
    assert SortBy(ByReleaseDate, albums)[i] in multiset(albums);
    m :| 0 <= m < |albums| && albums[m] == SortBy(ByReleaseDate, albums)[i];
  }

  /** Every listed album is an item of that artist. */
  lemma BreakdownOrigin(items: seq<(Option<string>, ArtistAlbum)>, k: nat, i: nat) returns (j: nat)
    requires k < |Breakdown(items)| && i < |Breakdown(items)[k].1.albums|
    ensures j < |items| && items[j] == (Some(Breakdown(items)[k].0), Breakdown(items)[k].1.albums[i])
  {
    var gs := GroupBy(items);
    GroupByIsGrouping(items);
    FinishedGroups(gs);
    var m := SortedAlbumSource(gs[k].1, i);
    j := MemberSource(items, gs[k].0, m);
  }

  /** Every item with an artist is listed under it. */
  lemma BreakdownLists(items: seq<(Option<string>, ArtistAlbum)>, j: nat)
    requires j < |items| && items[j].0.Some?
    ensures var s := Breakdown(items);
      GroupIndex(s, items[j].0.value) < |s| && items[j].1 in s[GroupIndex(s, items[j].0.value)].1.albums
  {
    var gs := GroupBy(items);
    var s := Breakdown(items);
    var a := items[j].0.value;
    GroupByIsGrouping(items);
    FinishedGroups(gs);
    SameNamesSameIndex(gs, s, a);
    var m := MemberAt(items, a, j);
    var k := GroupIndex(gs, a);
    SortByPermutation(ByReleaseDate, gs[k].1);
    assert gs[k].1[m] in multiset(s[k].1.albums);
  }

  predicate AllDatedAlbums(albums: seq<ArtistAlbum>) {
    forall i | 0 <= i < |albums| :: DateKey(albums[i].releaseDate).Some?
  }

  lemma ReleaseDatePreorder(albums: seq<ArtistAlbum>)
    requires AllDatedAlbums(albums)
    ensures TotalPreorderOn(ByReleaseDate, albums)
  {
    forall a | a in albums ensures DateKey(a.releaseDate).Some? {
      var i :| 0 <= i < |albums| && albums[i] == a;
    }
  }

  /** Dated albums sorted by release date run oldest first. */
  lemma DateSortedAlbums(albums: seq<ArtistAlbum>)
    requires AllDatedAlbums(albums)
    ensures var r := SortBy(ByReleaseDate, albums);
      AllDatedAlbums(r) &&
      forall i, i' | 0 <= i < i' < |r| :: DateKey(r[i].releaseDate).value <= DateKey(r[i'].releaseDate).value
  {
    var r := SortBy(ByReleaseDate, albums);
    SortByMembers(ByReleaseDate, albums, albums);
    forall i | 0 <= i < |r| ensures DateKey(r[i].releaseDate).Some? {
      assert r[i] in r;
      var m :| 0 <= m < |albums| && albums[m] == r[i];
    }
    ReleaseDatePreorder(albums);
    SortBySorted(ByReleaseDate, albums);
  }

  lemma BreakdownByDate(items: seq<(Option<string>, ArtistAlbum)>, k: nat)
    requires forall j | 0 <= j < |items| :: DateKey(items[j].1.releaseDate).Some?
    requires k < |Breakdown(items)|
    ensures var albums := Breakdown(items)[k].1.albums;
      AllDatedAlbums(albums) &&
      forall i, i' | 0 <= i < i' < |albums| ::
        DateKey(albums[i].releaseDate).value <= DateKey(albums[i'].releaseDate).value
  {
    var gs := GroupBy(items);
    GroupByIsGrouping(items);
    FinishedGroups(gs);
    forall m | 0 <= m < |gs[k].1| ensures DateKey(gs[k].1[m].releaseDate).Some? {
      var j := MemberSource(items, gs[k].0, m);
    }
    DateSortedAlbums(gs[k].1);
  }

  lemma BreakdownAverageInRange(items: seq<(Option<string>, ArtistAlbum)>, k: nat)
    requires forall j | 0 <= j < |items| :: items[j].1.rating.Numeric? && InUnitRange(items[j].1.rating.r)
    requires k < |Breakdown(items)|
    ensures Breakdown(items)[k].1.avgRating.Num?
    ensures InUnitRange(Breakdown(items)[k].1.avgRating.value)
  {
    var gs := GroupBy(items);
    GroupByIsGrouping(items);
    FinishedGroups(gs);
    GroupsNonEmpty(items, gs, k);
    var rs := RatingsOf(gs[k].1);
    forall m | 0 <= m < |rs| ensures rs[m].Numeric? && InUnitRange(rs[m].r) {
      var j := MemberSource(items, gs[k].0, m);
    }
    MeanInRange(rs);
  }

  /**
   * `groupByArtist` lists each artist some record names ("Unknown Artist"
   * for none) exactly once; each artist's albums are a reordering of its
   * records' albums, never empty, averaged by their rounded mean; and the
   * breakdown lists as many albums as there are records.
   */
  lemma ArtistBreakdownSpec(ratings: seq<Entry>)
    ensures var s := ArtistBreakdown(ratings);
      DistinctNames(s) &&
      (forall a :: GroupIndex(s, a) < |s| <==>
        exists j | 0 <= j < |ratings| :: ArtistGroup(ratings[j].1.artist) == a) &&
      (forall k | 0 <= k < |s| ::
        s[k].1.albums != [] &&
        multiset(s[k].1.albums) == multiset(Members(ArtistItems(ratings), s[k].0)) &&
        s[k].1.avgRating == Mean(TotalOf(RatingsOf(Members(ArtistItems(ratings), s[k].0))), |s[k].1.albums|)) &&
      AlbumCount(s) == |ratings|
  {
    var items := ArtistItems(ratings);
    BreakdownSpec(items);
    forall a ensures Members(items, a) != [] <==> exists j | 0 <= j < |ratings| :: ArtistGroup(ratings[j].1.artist) == a {
      MembersEmptyIff(items, a);
    }
  }

  /**
   * Every listed album is the album of a record by that artist, as written:
   * whatever the records hold, no listed album has a Spotify link.
   */
  lemma ListedAlbumOrigin(ratings: seq<Entry>, k: nat, i: nat) returns (j: nat)
    requires k < |ArtistBreakdown(ratings)| && i < |ArtistBreakdown(ratings)[k].1.albums|
    ensures j < |ratings|
    ensures ArtistGroup(ratings[j].1.artist) == ArtistBreakdown(ratings)[k].0
    ensures ArtistBreakdown(ratings)[k].1.albums[i] == ArtistAlbumAsWritten(ratings[j])
    ensures ArtistBreakdown(ratings)[k].1.albums[i].spotifyUrl == ""
  {
    j := BreakdownOrigin(ArtistItems(ratings), k, i);
  }

  /** With the saved links, every listed album is the album of a record by that artist, link included. */
  lemma LinkedAlbumOrigin(ratings: seq<Entry>, k: nat, i: nat) returns (j: nat)
    requires k < |LinkedArtistBreakdown(ratings)| && i < |LinkedArtistBreakdown(ratings)[k].1.albums|
    ensures j < |ratings|
    ensures ArtistGroup(ratings[j].1.artist) == LinkedArtistBreakdown(ratings)[k].0
    ensures LinkedArtistBreakdown(ratings)[k].1.albums[i] == ArtistAlbumOf(ratings[j])
  {
    j := BreakdownOrigin(LinkedArtistItems(ratings), k, i);
  }

  /** Every record's album is listed under its artist. */
  lemma RecordListedUnderArtist(ratings: seq<Entry>, j: nat)
    requires j < |ratings|
    ensures var s := ArtistBreakdown(ratings);
      GroupIndex(s, ArtistGroup(ratings[j].1.artist)) < |s| &&
      ArtistAlbumAsWritten(ratings[j]) in s[GroupIndex(s, ArtistGroup(ratings[j].1.artist))].1.albums
  {
    BreakdownLists(ArtistItems(ratings), j);
  }

  /**
   * A record saved with a Spotify link is listed under its artist without
   * the link, and its album with the link appears nowhere in the breakdown;
   * with the saved links it is listed under its artist, link included.
   */
  lemma SavedLinkIsDropped(ratings: seq<Entry>, j: nat)
    requires j < |ratings| && ratings[j].1.spotifyURL != ""
    ensures var s := ArtistBreakdown(ratings);
      (forall k | 0 <= k < |s| :: ArtistAlbumOf(ratings[j]) !in s[k].1.albums) &&
      GroupIndex(s, ArtistGroup(ratings[j].1.artist)) < |s| &&
      ArtistAlbumAsWritten(ratings[j]) in s[GroupIndex(s, ArtistGroup(ratings[j].1.artist))].1.albums
    ensures var t := LinkedArtistBreakdown(ratings);
      GroupIndex(t, ArtistGroup(ratings[j].1.artist)) < |t| &&
      ArtistAlbumOf(ratings[j]) in t[GroupIndex(t, ArtistGroup(ratings[j].1.artist))].1.albums
  {
    var s := ArtistBreakdown(ratings);
    forall k | 0 <= k < |s| ensures ArtistAlbumOf(ratings[j]) !in s[k].1.albums {
      forall i | 0 <= i < |s[k].1.albums| ensures s[k].1.albums[i] != ArtistAlbumOf(ratings[j]) {
        var j' := ListedAlbumOrigin(ratings, k, i);
      }
    }
    RecordListedUnderArtist(ratings, j);
    BreakdownLists(LinkedArtistItems(ratings), j);
  }

  /** When every release date is empty or an ISO date, each artist's albums run oldest first. */
  lemma ArtistAlbumsByDate(ratings: seq<Entry>, k: nat)
    requires AllDated(ratings)
    requires k < |ArtistBreakdown(ratings)|
    ensures var albums := ArtistBreakdown(ratings)[k].1.albums;
      AllDatedAlbums(albums) &&
      forall i, i' | 0 <= i < i' < |albums| ::
        DateKey(albums[i].releaseDate).value <= DateKey(albums[i'].releaseDate).value
  {
    BreakdownByDate(ArtistItems(ratings), k);
  }

  predicate AllInRangeRecords(ratings: seq<Entry>) {
    forall j | 0 <= j < |ratings| :: ratings[j].1.rating.Numeric? && InUnitRange(ratings[j].1.rating.r)
  }

  /** With every rating in [1, 10], every artist's average is a number in [1, 10]. */
  lemma ArtistAverageInRange(ratings: seq<Entry>, k: nat)
    requires AllInRangeRecords(ratings)
    requires k < |ArtistBreakdown(ratings)|
    ensures ArtistBreakdown(ratings)[k].1.avgRating.Num?
    ensures InUnitRange(ArtistBreakdown(ratings)[k].1.avgRating.value)
  {
    BreakdownAverageInRange(ArtistItems(ratings), k);
  }

  // ---------------------------------------------------------------------
  // The artist listing

  const ArtistsPerPage: nat := 5

  function ByArtistAvgDesc(a: (string, ArtistSummary), b: (string, ArtistSummary)): int {
    AvgDesc(a.1.avgRating, b.1.avgRating)
  }

  /** `Math.ceil(sortedArtists.length / artistsPerPage)`. */
  function ArtistTotalPages(n: nat): (t: nat)
    ensures t * ArtistsPerPage >= n
    ensures t == 0 || (t - 1) * ArtistsPerPage < n
  {
    (n + ArtistsPerPage - 1) / ArtistsPerPage
  }

  /**
   * The artists sorted by average, highest first, cut to page `page`: at
   * most five of them, and none on a page past the last one.
   */
  function ArtistPage(grouped: seq<(string, ArtistSummary)>, page: int): (rows: seq<(string, ArtistSummary)>)
    ensures |rows| <= ArtistsPerPage
    ensures page > ArtistTotalPages(|grouped|) ==> rows == []
  {
    SortByPermutation(ByArtistAvgDesc, grouped);
    var sorted := SortBy(ByArtistAvgDesc, grouped);
    JsSlice(sorted, (page - 1) * ArtistsPerPage, (page - 1) * ArtistsPerPage + ArtistsPerPage)
  }

  predicate ArtistsAveraged(grouped: seq<(string, ArtistSummary)>) {
    forall k | 0 <= k < |grouped| :: grouped[k].1.avgRating.Num?
  }

  lemma ArtistAvgPreorder(grouped: seq<(string, ArtistSummary)>)
    requires ArtistsAveraged(grouped)
    ensures TotalPreorderOn(ByArtistAvgDesc, grouped)
  {
    forall a | a in grouped ensures a.1.avgRating.Num? {
      var k :| 0 <= k < |grouped| && grouped[k] == a;
    }
  }

  /** Sorting the artists by average puts the highest average first. */
  lemma ArtistAvgOrdered(grouped: seq<(string, ArtistSummary)>)
    requires ArtistsAveraged(grouped)
    ensures var sorted := SortBy(ByArtistAvgDesc, grouped);
      ArtistsAveraged(sorted) &&
      forall i, j | 0 <= i < j < |sorted| :: sorted[i].1.avgRating.value >= sorted[j].1.avgRating.value
  {
    var sorted := SortBy(ByArtistAvgDesc, grouped);
    SortByMembers(ByArtistAvgDesc, grouped, grouped);
    forall i | 0 <= i < |sorted| ensures sorted[i].1.avgRating.Num? {
      assert sorted[i] in sorted;
      var k :| 0 <= k < |grouped| && grouped[k] == sorted[i];
    }
    ArtistAvgPreorder(grouped);
    SortBySorted(ByArtistAvgDesc, grouped);
  }

  /**
   * The listing sorts the artists by average, highest first, and page `p`
   * shows the artists 5(p - 1) up to 5p of that order, at most five.
   */
  lemma ArtistPageSpec(grouped: seq<(string, ArtistSummary)>, page: int)
    requires ArtistsAveraged(grouped) && page >= 1
    ensures var sorted := SortBy(ByArtistAvgDesc, grouped);
      multiset(sorted) == multiset(grouped) &&
      ArtistsAveraged(sorted) &&
      (forall i, j | 0 <= i < j < |sorted| :: sorted[i].1.avgRating.value >= sorted[j].1.avgRating.value) &&
      ArtistPage(grouped, page) ==
        sorted[MinNat((page - 1) * ArtistsPerPage, |sorted|)..MinNat(page * ArtistsPerPage, |sorted|)] &&
      |ArtistPage(grouped, page)| <= ArtistsPerPage
  {
    SortByPermutation(ByArtistAvgDesc, grouped);
    ArtistAvgOrdered(grouped);
  }

  /** `renderArtistBreakdown` without the markup: the artists of the current page and the page count. */
  method ArtistListing(ratings: seq<Entry>, currentArtistPage: int)
    returns (pageRows: seq<(string, ArtistSummary)>, totalPages: nat)
    ensures pageRows == ArtistPage(ArtistBreakdown(ratings), currentArtistPage)
    ensures totalPages == ArtistTotalPages(|ArtistBreakdown(ratings)|)
  {
    var grouped := GroupByArtist(ratings);
    totalPages := ArtistTotalPages(|grouped|);
    pageRows := ArtistPage(grouped, currentArtistPage);
  }
}
