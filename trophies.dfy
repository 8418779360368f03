/**
 * The best-rated trophies of the listing: `getBestRatedTags` finds, over
 * the sorted entries, the first album with the highest numeric rating in
 * each group of the current sort and overall, and the row renderer shows a
 * trophy on an album that leads its group.
 */
module Trophies {
  import opened Wrappers
  import opened Text
  import opened Tokens
  import opened Records
  import opened Listing

  // ---------------------------------------------------------------------
  // Groups

  const UnknownArtist: string := "Unknown Artist"
  const UnknownDecade: string := "Unknown Decade"

  predicate IsGenreSort(opt: SortOption) { opt.GenreAsc? || opt.GenreDesc? }
  predicate IsArtistSort(opt: SortOption) { opt.ArtistAsc? || opt.ArtistDesc? }
  predicate IsRatingSort(opt: SortOption) { opt.RatingAsc? || opt.RatingDesc? }

  /** `d.artist || "Unknown Artist"`. */
  function ArtistGroup(artist: string): string {
    if artist == "" then UnknownArtist else artist
  }

  /** The decade of `new Date(releaseDate)`, or "Unknown Decade" for an Invalid Date. */
  function DecadeGroup(releaseDate: string): string {
    match IsoYear(releaseDate)
    case Some(y) => DecadeLabel(y)
    case None => UnknownDecade
  }

  /**
   * `groupKeyFn` of `getBestRatedTags`: every sort but the rating sorts
   * groups every album; an artist or date group is never empty, and a genre
   * group is empty exactly when the genre is a non-empty run of whitespace
   * (the one case `if (groupKey)` drops).
   */
  function GroupKey(opt: SortOption, rec: AlbumRecord): (key: Option<string>)
    ensures key.None? <==> IsRatingSort(opt)
    ensures (IsArtistSort(opt) || IsDateSort(opt)) ==> key.value != ""
    ensures IsGenreSort(opt) ==> (key.value == "" <==> rec.genre != "" && AllSpace(rec.genre))
  {
    NormalizeGenreEmptyIff(Some(rec.genre));
    assert IsoYear(rec.releaseDate).Some? ==> DecadeLabel(IsoYear(rec.releaseDate).value) != "";
    if IsGenreSort(opt) then Some(NormalizeGenre(Some(rec.genre)))
    else if IsArtistSort(opt) then Some(ArtistGroup(rec.artist))
    else if IsDateSort(opt) then Some(DecadeGroup(rec.releaseDate))
    else None
  }

  /**
   * The group a row is rendered under: the same as `GroupKey` except that
   * a genre sort uses the raw genre, `data.genre || "Unknown Genre"`, which
   * is never empty and agrees with the tabulated group exactly when the
   * genre is empty or already in its normal form.
   */
  function RenderGroupKey(opt: SortOption, rec: AlbumRecord): (key: Option<string>)
    ensures !IsGenreSort(opt) ==> key == GroupKey(opt, rec)
    ensures IsGenreSort(opt) ==> key.Some? && key.value != ""
    ensures IsGenreSort(opt) ==>
      (key == GroupKey(opt, rec) <==> rec.genre == "" || NormalizeGenre(Some(rec.genre)) == rec.genre)
  {
    if IsGenreSort(opt) then Some(if rec.genre == "" then UnknownGenre else rec.genre)
    else GroupKey(opt, rec)
  }

  /** "by" an artist, "in" a genre or a decade. */
  function Label(opt: SortOption): (word: string)
    ensures word == "by" <==> IsArtistSort(opt)
    ensures word != "by" ==> word == "in"
  {
    if IsArtistSort(opt) then "by" else "in"
  }

  /** The group of every entry under `opt`, in order. */
  function GroupKeys(opt: SortOption, s: seq<Entry>): (keys: seq<Option<string>>)
    ensures |keys| == |s|
    ensures forall j | 0 <= j < |s| :: keys[j] == GroupKey(opt, s[j].1)
  {
    seq(|s|, j requires 0 <= j < |s| => GroupKey(opt, s[j].1))
  }

  // ---------------------------------------------------------------------
  // The first highest rating, for any assignment of entries to groups

  /** What a best-rated search ranges over: every album, or one group. */
  datatype Scope = Overall | Group(group: string)

  /** An entry, filed under `key`, competes in `sc`: its rating parses and it belongs to the scope. */
  predicate Competes(sc: Scope, e: Entry, key: Option<string>) {
    e.1.rating.Numeric? && (sc.Overall? || key == Some(sc.group))
  }

  /**
   * The position of the winner of `sc` among the first `n` entries, each
   * filed under its key; `BestAtSpec` says what it is.
   */
  function BestAt(s: seq<Entry>, keys: seq<Option<string>>, n: nat, sc: Scope): (b: Option<nat>)
    requires n <= |s| == |keys|
    ensures b.Some? ==> b.value < n && Competes(sc, s[b.value], keys[b.value])
    decreases n
  {
    if n == 0 then None
    else
      var b := BestAt(s, keys, n - 1, sc);
      if Competes(sc, s[n - 1], keys[n - 1]) && (b.None? || s[n - 1].1.rating.r > s[b.value].1.rating.r)
      then Some(n - 1)
      else b
  }

  /**
   * The winner is the first competing entry whose rating no other competing
   * entry exceeds, and there is none exactly when nothing competes.
   */
  lemma {:induction false} BestAtSpec(s: seq<Entry>, keys: seq<Option<string>>, n: nat, sc: Scope)
    requires n <= |s| == |keys|
    ensures var b := BestAt(s, keys, n, sc);
      (b.None? <==> forall j | 0 <= j < n :: !Competes(sc, s[j], keys[j])) &&
      (b.Some? ==> forall j | 0 <= j < n && Competes(sc, s[j], keys[j]) ::
        s[j].1.rating.r <= s[b.value].1.rating.r) &&
      (b.Some? ==> forall j | 0 <= j < b.value && Competes(sc, s[j], keys[j]) ::
        s[j].1.rating.r < s[b.value].1.rating.r)
  {
    if n > 0 {
      BestAtSpec(s, keys, n - 1, sc);
    }
  }

  /** The winner as the code records it: `{ album, rating }`. */
  function BestUpTo(s: seq<Entry>, keys: seq<Option<string>>, n: nat, sc: Scope): Option<(string, real)>
    requires n <= |s| == |keys|
  {
    match BestAt(s, keys, n, sc)
    case None => None
    case Some(i) => Some((s[i].0, s[i].1.rating.r))
  }

  /** One more entry replaces the winner only when it competes with a strictly higher rating. */
  lemma BestStep(s: seq<Entry>, keys: seq<Option<string>>, i: nat, sc: Scope)
    requires i < |s| == |keys|
    ensures BestUpTo(s, keys, i + 1, sc) ==
      if Competes(sc, s[i], keys[i]) &&
         (BestUpTo(s, keys, i, sc).None? || s[i].1.rating.r > BestUpTo(s, keys, i, sc).value.1)
      then Some((s[i].0, s[i].1.rating.r))
      else BestUpTo(s, keys, i, sc)
  {
  }

  /** Any competing entry that is maximal and strictly above every earlier competitor is the winner. */
  lemma BestAtUnique(s: seq<Entry>, keys: seq<Option<string>>, n: nat, sc: Scope, i: nat)
    requires i < n <= |s| == |keys| && Competes(sc, s[i], keys[i])
    requires forall j | 0 <= j < n && Competes(sc, s[j], keys[j]) :: s[j].1.rating.r <= s[i].1.rating.r
    requires forall j | 0 <= j < i && Competes(sc, s[j], keys[j]) :: s[j].1.rating.r < s[i].1.rating.r
    ensures BestAt(s, keys, n, sc) == Some(i)
  {
    BestAtSpec(s, keys, n, sc);
  }

  /**
   * The overall winner also wins the group it is filed under: nothing in
   * its group beats it, and everything before it is strictly lower.
   */
  lemma OverallWinnerLeadsItsGroup(s: seq<Entry>, keys: seq<Option<string>>)
    requires |s| == |keys| && BestAt(s, keys, |s|, Overall).Some?
    requires keys[BestAt(s, keys, |s|, Overall).value].Some?
    ensures var i := BestAt(s, keys, |s|, Overall).value;
      BestAt(s, keys, |s|, Group(keys[i].value)) == Some(i)
  {
    var i := BestAt(s, keys, |s|, Overall).value;
    var sc := Group(keys[i].value);
    BestAtSpec(s, keys, |s|, Overall);
    forall j | 0 <= j < |s| && Competes(sc, s[j], keys[j]) ensures s[j].1.rating.r <= s[i].1.rating.r {
      assert Competes(Overall, s[j], keys[j]);
    }
    forall j | 0 <= j < i && Competes(sc, s[j], keys[j]) ensures s[j].1.rating.r < s[i].1.rating.r {
      assert Competes(Overall, s[j], keys[j]);
    }
    BestAtUnique(s, keys, |s|, sc, i);
  }

  // ---------------------------------------------------------------------
  // getBestRatedTags

  /**
   * `bestByGroup` and `bestOverall` after the first `n` entries: a group
   * has an entry exactly when it is non-empty and has a competitor, and
   * that entry and `bestOverall` are the winners.
   */
  ghost predicate TabulatesUpTo(s: seq<Entry>, keys: seq<Option<string>>, n: nat,
                                bestByGroup: map<string, (string, real)>, bestOverall: Option<(string, real)>)
  {
    n <= |s| == |keys| &&
    bestOverall == BestUpTo(s, keys, n, Overall) &&
    (forall g :: g in bestByGroup <==> g != "" && BestUpTo(s, keys, n, Group(g)).Some?) &&
    (forall g | g in bestByGroup :: Some(bestByGroup[g]) == BestUpTo(s, keys, n, Group(g)))
  }

  /** The tables hold the winners of the sorted entries grouped as `opt` groups them. */
  ghost predicate Tabulates(opt: SortOption, s: seq<Entry>,
                            bestByGroup: map<string, (string, real)>, bestOverall: Option<(string, real)>)
  {
    TabulatesUpTo(s, GroupKeys(opt, s), |s|, bestByGroup, bestOverall)
  }

  /** The winner of `sc` among all of `s` grouped as `opt` groups them. */
  function Winner(opt: SortOption, s: seq<Entry>, sc: Scope): Option<(string, real)> {
    BestUpTo(s, GroupKeys(opt, s), |s|, sc)
  }

  /** The group table after one more entry filed under `key`, as the loop body updates it. */
  function AddToGroups(e: Entry, key: Option<string>, m: map<string, (string, real)>): map<string, (string, real)> {
    if e.1.rating.Numeric? && key.Some? && key.value != "" &&
       (key.value !in m || e.1.rating.r > m[key.value].1)
    then m[key.value := (e.0, e.1.rating.r)]
    else m
  }

  /** The overall winner after one more entry. */
  function AddToOverall(e: Entry, o: Option<(string, real)>): Option<(string, real)> {
    if e.1.rating.Numeric? && (o.None? || e.1.rating.r > o.value.1) then Some((e.0, e.1.rating.r)) else o
  }

  lemma TabulateStep(s: seq<Entry>, keys: seq<Option<string>>, i: nat,
                     before: map<string, (string, real)>, after: map<string, (string, real)>)
    requires i < |s| == |keys|
    requires forall g :: g in before <==> g != "" && BestUpTo(s, keys, i, Group(g)).Some?
    requires forall g | g in before :: Some(before[g]) == BestUpTo(s, keys, i, Group(g))
    requires after == AddToGroups(s[i], keys[i], before)
    ensures forall g :: g in after <==> g != "" && BestUpTo(s, keys, i + 1, Group(g)).Some?
    ensures forall g | g in after :: Some(after[g]) == BestUpTo(s, keys, i + 1, Group(g))
  {
    forall g ensures (g in after <==> g != "" && BestUpTo(s, keys, i + 1, Group(g)).Some?) &&
                     (g in after ==> Some(after[g]) == BestUpTo(s, keys, i + 1, Group(g))) {
      BestStep(s, keys, i, Group(g));
    }
  }

  /** One iteration of the loop keeps both tables equal to the winners so far. */
  lemma TabulateNext(s: seq<Entry>, keys: seq<Option<string>>, i: nat,
                     m: map<string, (string, real)>, o: Option<(string, real)>)
    requires i < |s| && TabulatesUpTo(s, keys, i, m, o)
    ensures TabulatesUpTo(s, keys, i + 1, AddToGroups(s[i], keys[i], m), AddToOverall(s[i], o))
  {
    TabulateStep(s, keys, i, m, AddToGroups(s[i], keys[i], m));
    BestStep(s, keys, i, Overall);
  }

  /** The two tables after visiting the first `n` entries, each filed under its key. */
  function TablesFor(s: seq<Entry>, keys: seq<Option<string>>, n: nat): (map<string, (string, real)>, Option<(string, real)>)
    requires n <= |s| == |keys|
  {
    if n == 0 then (map[], None)
    else
      var t := TablesFor(s, keys, n - 1);
      (AddToGroups(s[n - 1], keys[n - 1], t.0), AddToOverall(s[n - 1], t.1))
  }

  /** The tables folded this way hold the winners of every group and overall. */
  lemma {:induction false} TablesTabulate(s: seq<Entry>, keys: seq<Option<string>>, n: nat)
    returns (m: map<string, (string, real)>, o: Option<(string, real)>)
    requires n <= |s| == |keys|
    ensures (m, o) == TablesFor(s, keys, n)
    ensures TabulatesUpTo(s, keys, n, m, o)
  {
    if n == 0 {
      m, o := map[], None;
    } else {
      var m0, o0 := TablesTabulate(s, keys, n - 1);
      TabulateNext(s, keys, n - 1, m0, o0);
      m, o := AddToGroups(s[n - 1], keys[n - 1], m0), AddToOverall(s[n - 1], o0);
    }
  }

  /** The two tables after the loop of `getBestRatedTags` has visited the first `n` sorted entries. */
  function Tables(opt: SortOption, s: seq<Entry>, n: nat): (map<string, (string, real)>, Option<(string, real)>)
    requires n <= |s|
  {
    if n == 0 then (map[], None)
    else
      var t := Tables(opt, s, n - 1);
      (AddToGroups(s[n - 1], GroupKey(opt, s[n - 1].1), t.0), AddToOverall(s[n - 1], t.1))
  }

  lemma {:induction false} TablesAgree(opt: SortOption, s: seq<Entry>, keys: seq<Option<string>>, n: nat)
    requires n <= |s| == |keys|
    requires forall j | 0 <= j < |s| :: keys[j] == GroupKey(opt, s[j].1)
    ensures Tables(opt, s, n) == TablesFor(s, keys, n)
  {
    if n > 0 {
      TablesAgree(opt, s, keys, n - 1);
    }
  }

  /** A rating sort files nothing, so its group table stays empty. */
  lemma {:induction false} RatingSortTablesEmpty(opt: SortOption, s: seq<Entry>, n: nat)
    requires n <= |s| && IsRatingSort(opt)
    ensures Tables(opt, s, n).0 == map[]
  {
    if n > 0 {
      RatingSortTablesEmpty(opt, s, n - 1);
    }
  }

  /** What the loop builds is what `Tabulates` describes. */
  lemma TablesAreWinners(opt: SortOption, s: seq<Entry>)
    ensures Tabulates(opt, s, Tables(opt, s, |s|).0, Tables(opt, s, |s|).1)
  {
    var keys := GroupKeys(opt, s);
    TablesAgree(opt, s, keys, |s|);
    var m, o := TablesTabulate(s, keys, |s|);
  }

  /** `getBestRatedTags(sortedAlbums, sortOption)`; `None` stands for `{ album: null, rating: -Infinity }`. */
  method BestRatedTags(sorted: seq<Entry>, opt: SortOption)
    returns (bestByGroup: map<string, (string, real)>, bestOverall: Option<(string, real)>)
    ensures (bestByGroup, bestOverall) == Tables(opt, sorted, |sorted|)
    ensures Tabulates(opt, sorted, bestByGroup, bestOverall)
    ensures IsRatingSort(opt) ==> bestByGroup == map[]
  {
    bestByGroup := map[];
    bestOverall := None;
    var i := 0;
    while i < |sorted|
      invariant i <= |sorted|
      invariant (bestByGroup, bestOverall) == Tables(opt, sorted, i)
    {
      var album := sorted[i].0;
      var data := sorted[i].1;
      ghost var next := (AddToGroups(sorted[i], GroupKey(opt, data), bestByGroup), AddToOverall(sorted[i], bestOverall));
      assert Tables(opt, sorted, i + 1) == next;
      if data.rating.Numeric? {
        var rating := data.rating.r;
        var groupKey := GroupKey(opt, data);
        if groupKey.Some? && groupKey.value != "" {
          if groupKey.value !in bestByGroup || rating > bestByGroup[groupKey.value].1 {
            bestByGroup := bestByGroup[groupKey.value := (album, rating)];
          }
        }
        assert bestByGroup == next.0;
        if bestOverall.None? || rating > bestOverall.value.1 {
          bestOverall := Some((album, rating));
        }
      }
      i := i + 1;
    }
    TablesAreWinners(opt, sorted);
    if IsRatingSort(opt) {
      RatingSortTablesEmpty(opt, sorted, |sorted|);
    }
  }

  // ---------------------------------------------------------------------
  // The trophy on a row

  /** No trophy, "🏆 Best rated {word} {group}", or the double trophy of the overall best. */
  datatype Tag = NoTag | GroupBest(word: string, group: string) | OverallBest(word: string, group: string)

  /**
   * The trophy of one row looked up under `key` in the tables: one exactly
   * when the non-empty group `key` is tabulated with this row's album, the
   * double one exactly when the album is also the overall best.
   */
  function TagFor(opt: SortOption, e: Entry, key: Option<string>,
                  bestByGroup: map<string, (string, real)>, bestOverall: Option<(string, real)>): (t: Tag)
    ensures t != NoTag <==>
      key.Some? && key.value != "" && key.value in bestByGroup && bestByGroup[key.value].0 == e.0
    ensures t != NoTag ==> t.word == Label(opt) && Some(t.group) == key
    ensures t.OverallBest? <==> t != NoTag && bestOverall.Some? && bestOverall.value.0 == e.0
  {
    var inGroup := key.Some? && key.value != "" && key.value in bestByGroup && bestByGroup[key.value].0 == e.0;
    var overall := bestOverall.Some? && bestOverall.value.0 == e.0;
    if inGroup && overall then OverallBest(Label(opt), key.value)
    else if inGroup then GroupBest(Label(opt), key.value)
    else NoTag
  }

  /**
   * The renderer as written: it looks the row up under its raw genre, and
   * a rating sort shows no trophy at all.
   */
  function TrophyAsWritten(opt: SortOption, e: Entry,
                           bestByGroup: map<string, (string, real)>, bestOverall: Option<(string, real)>): (t: Tag)
    ensures t != NoTag ==>
      Some(t.group) == RenderGroupKey(opt, e.1) && t.group in bestByGroup && bestByGroup[t.group].0 == e.0
    ensures IsRatingSort(opt) ==> t == NoTag
  {
    TagFor(opt, e, RenderGroupKey(opt, e.1), bestByGroup, bestOverall)
  }

  /**
   * The renderer looking the row up under the group it was tabulated in;
   * a rating sort shows no trophy at all.
   */
  function Trophy(opt: SortOption, e: Entry,
                  bestByGroup: map<string, (string, real)>, bestOverall: Option<(string, real)>): (t: Tag)
    ensures t != NoTag ==>
      Some(t.group) == GroupKey(opt, e.1) && t.group in bestByGroup && bestByGroup[t.group].0 == e.0
    ensures IsRatingSort(opt) ==> t == NoTag
  {
    TagFor(opt, e, GroupKey(opt, e.1), bestByGroup, bestOverall)
  }

  /** The text inside the trophy's element, with the group escaped. */
  function TagText(t: Tag): (text: string)
    ensures t.NoTag? <==> text == ""
  {
    match t
    case NoTag => ""
    case GroupBest(w, g) => "\U{1F3C6} Best rated " + w + " " + EscapeStr(g)
    case OverallBest(w, g) => "\U{1F3C6}\U{1F3C6} Best rated " + w + " " + EscapeStr(g)
  }

  /** Looked up under `key`, a row gets a trophy exactly when it wins that group. */
  lemma TagForIff(opt: SortOption, s: seq<Entry>, keys: seq<Option<string>>, key: Option<string>, e: Entry,
                  bestByGroup: map<string, (string, real)>, bestOverall: Option<(string, real)>)
    requires TabulatesUpTo(s, keys, |s|, bestByGroup, bestOverall)
    ensures var wins := key.Some? && key.value != "" && BestUpTo(s, keys, |s|, Group(key.value)).Some? &&
        BestUpTo(s, keys, |s|, Group(key.value)).value.0 == e.0;
      (TagFor(opt, e, key, bestByGroup, bestOverall) != NoTag <==> wins) &&
      (TagFor(opt, e, key, bestByGroup, bestOverall).OverallBest? <==>
        wins && bestOverall.Some? && bestOverall.value.0 == e.0)
  {
    if key.Some? && key.value != "" && key.value in bestByGroup {
      assert Some(bestByGroup[key.value]) == BestUpTo(s, keys, |s|, Group(key.value));
    }
  }

  /**
   * With the tables of `getBestRatedTags`, a row gets a trophy exactly when
   * it is the winner of its non-empty group, and the double trophy exactly
   * when it is also the overall winner.
   */
  lemma TrophyIffGroupWinner(opt: SortOption, s: seq<Entry>, e: Entry,
                             bestByGroup: map<string, (string, real)>, bestOverall: Option<(string, real)>)
    requires Tabulates(opt, s, bestByGroup, bestOverall)
    ensures var key := GroupKey(opt, e.1);
      var wins := key.Some? && key.value != "" && Winner(opt, s, Group(key.value)).Some? &&
        Winner(opt, s, Group(key.value)).value.0 == e.0;
      (Trophy(opt, e, bestByGroup, bestOverall) != NoTag <==> wins) &&
      (Trophy(opt, e, bestByGroup, bestOverall).OverallBest? <==>
        wins && Winner(opt, s, Overall).Some? && Winner(opt, s, Overall).value.0 == e.0)
  {
    TagForIff(opt, s, GroupKeys(opt, s), GroupKey(opt, e.1), e, bestByGroup, bestOverall);
  }

  /**
   * As written, a row gets a trophy exactly when it is the winner of the
   * tabulated group that carries its rendered name.
   */
  lemma TrophyAsWrittenIff(opt: SortOption, s: seq<Entry>, e: Entry,
                           bestByGroup: map<string, (string, real)>, bestOverall: Option<(string, real)>)
    requires Tabulates(opt, s, bestByGroup, bestOverall)
    ensures var key := RenderGroupKey(opt, e.1);
      var wins := key.Some? && key.value != "" && Winner(opt, s, Group(key.value)).Some? &&
        Winner(opt, s, Group(key.value)).value.0 == e.0;
      (TrophyAsWritten(opt, e, bestByGroup, bestOverall) != NoTag <==> wins) &&
      (TrophyAsWritten(opt, e, bestByGroup, bestOverall).OverallBest? <==>
        wins && Winner(opt, s, Overall).Some? && Winner(opt, s, Overall).value.0 == e.0)
  {
    TagForIff(opt, s, GroupKeys(opt, s), RenderGroupKey(opt, e.1), e, bestByGroup, bestOverall);
  }

  /**
   * Under a genre sort, as written, an album whose genre is not already in
   * its normal form never shows a trophy: no album is tabulated under a
   * name that normalises to something else.
   */
  lemma UnnormalGenreNeverWins(opt: SortOption, s: seq<Entry>, e: Entry,
                               bestByGroup: map<string, (string, real)>, bestOverall: Option<(string, real)>)
    requires IsGenreSort(opt) && Tabulates(opt, s, bestByGroup, bestOverall)
    requires e.1.genre != "" && NormalizeGenre(Some(e.1.genre)) != e.1.genre
    ensures TrophyAsWritten(opt, e, bestByGroup, bestOverall) == NoTag
  {
    var g := e.1.genre;
    var keys := GroupKeys(opt, s);
    forall j | 0 <= j < |s| ensures keys[j] != Some(g) {
      if NormalizeGenre(Some(s[j].1.genre)) != [] {
        NormalizeGenreIdempotent(Some(s[j].1.genre));
      }
    }
    BestAtSpec(s, keys, |s|, Group(g));
    TagForIff(opt, s, keys, Some(g), e, bestByGroup, bestOverall);
  }

  /**
   * The overall winner, looked up under its own non-empty group, wears the
   * double trophy: whatever the grouping, the best album overall is also
   * the best of its group.
   */
  lemma WinnerTagIsDouble(opt: SortOption, s: seq<Entry>, keys: seq<Option<string>>,
                          bestByGroup: map<string, (string, real)>, bestOverall: Option<(string, real)>)
    requires TabulatesUpTo(s, keys, |s|, bestByGroup, bestOverall)
    requires BestAt(s, keys, |s|, Overall).Some?
    requires keys[BestAt(s, keys, |s|, Overall).value].Some?
    requires keys[BestAt(s, keys, |s|, Overall).value].value != ""
    ensures var i := BestAt(s, keys, |s|, Overall).value;
      TagFor(opt, s[i], keys[i], bestByGroup, bestOverall).OverallBest?
  {
    var i := BestAt(s, keys, |s|, Overall).value;
    OverallWinnerLeadsItsGroup(s, keys);
    TagForIff(opt, s, keys, keys[i], s[i], bestByGroup, bestOverall);
  }

  // ---------------------------------------------------------------------
  // The raw genre lookup

  const HipHopAlbum: Entry :=
    ("x", AlbumRecord(Numeric(8.0), 8.0, 8.0, 8.0, 8.0, 0, "", "hip-hop", "", "", "", map[], ""))

  lemma HipHopIsRap()
    ensures NormalizeGenre(Some("hip-hop")) == "Rap"
  {
    TrimOfTrimmed("hip-hop");
    assert LowerStr("hip-hop") == "hip-hop";
  }

  /**
   * A lone "hip-hop" album rated 8 under a genre sort is tabulated as the
   * best in "Rap" and overall, but the renderer looks it up under
   * "hip-hop" and shows no trophy; looked up under its tabulated group it
   * gets the double trophy.
   */
  lemma RawGenreLosesTrophy(bestByGroup: map<string, (string, real)>, bestOverall: Option<(string, real)>)
    requires Tabulates(GenreDesc, [HipHopAlbum], bestByGroup, bestOverall)
    ensures TrophyAsWritten(GenreDesc, HipHopAlbum, bestByGroup, bestOverall) == NoTag
    ensures Trophy(GenreDesc, HipHopAlbum, bestByGroup, bestOverall) == OverallBest("in", "Rap")
  {
    var s := [HipHopAlbum];
    var keys := GroupKeys(GenreDesc, s);
    HipHopIsRap();
    assert keys[0] == Some("Rap");
    assert BestUpTo(s, keys, 1, Group("hip-hop")).None?;
    assert "hip-hop" !in bestByGroup;
    assert BestUpTo(s, keys, 1, Group("Rap")) == Some(("x", 8.0));
    assert "Rap" in bestByGroup;
  }
}
