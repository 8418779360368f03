/**
 * The saved ratings and the saved sort preference, and the operations
 * that change them: submitting the rating form, deleting a rating, and
 * showing the listing (which remembers the sort it was shown with).
 */
module Store {
  import opened Wrappers
  import opened Text
  import opened Records
  import opened Scoring
  import opened Listing
  import opened Trophies

  /** What the rating form holds when it is submitted. */
  datatype Submission = Submission(
    form: RatingForm,
    coverURL: string,
    spotifyURL: string,
    artist: string,
    genre: string,
    releaseDate: string,
    individual: bool,
    songValues: seq<string>)

  /** The songs map a submission saves: `BuildSongs`'s promise, as a relation. */
  ghost predicate SongsFrom(individual: bool, values: seq<string>, songs: map<string, string>) {
    (!individual ==> songs == map[]) &&
    (individual ==> forall i | 0 <= i < |values| :: SongTitle(i) in songs <==> SongText(values[i]) != "") &&
    (forall i | 0 <= i < |values| && SongTitle(i) in songs :: songs[SongTitle(i)] == SongText(values[i])) &&
    (forall k | k in songs :: exists i :: 0 <= i < |values| && k == SongTitle(i))
  }

  /**
   * The record written on submit: the final rating and the validated
   * factors, the text fields trimmed except the release date, and no
   * display name.
   */
  function SavedRecord(sub: Submission, sc: Scores, songs: map<string, string>): (rec: AlbumRecord)
    ensures rec.rating.Numeric? && InUnitRange(rec.rating.r)
    ensures Trimmed(rec.artist) && Trimmed(rec.genre) && Trimmed(rec.cover) && Trimmed(rec.spotifyURL)
  {
    TrimSpec(sub.artist);
    TrimSpec(sub.genre);
    TrimSpec(sub.coverURL);
    TrimSpec(sub.spotifyURL);
    AlbumRecord(Numeric(FinalRating(sc)), sc.avgSong, sc.lyricism, sc.instrumentation, sc.vibe, sc.skips,
                Trim(sub.artist), Trim(sub.genre), sub.releaseDate, Trim(sub.coverURL), Trim(sub.spotifyURL),
                songs, "")
  }

  /** One listing row: the entry and the trophy shown on it. */
  type Row = (Entry, Tag)

  /** The loop over `paginatedAlbums`: each row with the trophy the renderer shows on it. */
  method TagRows(opt: SortOption, pageRows: seq<Entry>,
                 bestByGroup: map<string, (string, real)>, bestOverall: Option<(string, real)>)
    returns (rows: seq<Row>)
    ensures |rows| == |pageRows|
    ensures forall k | 0 <= k < |rows| :: rows[k] == (pageRows[k], TrophyAsWritten(opt, pageRows[k], bestByGroup, bestOverall))
  {
    rows := [];
    var i := 0;
    while i < |pageRows|
      invariant 0 <= i <= |pageRows| && |rows| == i
      invariant forall k | 0 <= k < i :: rows[k] == (pageRows[k], TrophyAsWritten(opt, pageRows[k], bestByGroup, bestOverall))
    {
      rows := rows + [(pageRows[i], TrophyAsWritten(opt, pageRows[i], bestByGroup, bestOverall))];
      i := i + 1;
    }
  }

  class RatingStore {
    /** `savedRatings`, in key insertion order. */
    var entries: seq<Entry>
    /** `currentSortOption`, also kept under "sortOption". */
    var sortOption: SortOption

    ghost predicate Valid()
      reads this
    {
      DistinctKeys(entries)
    }

    /** `savedRatings[key]`. */
    function Get(key: string): (v: Option<AlbumRecord>)
      reads this
      ensures v.Some? <==> HasKey(entries, key)
    {
      Lookup(entries, key)
    }

    /** An empty collection and the saved sort preference, "ratingDesc" when there is none. */
    constructor (savedSort: Option<SortOption>)
      ensures Valid() && entries == []
      ensures sortOption == (if savedSort.Some? then savedSort.value else RatingDesc)
    {
      entries := [];
      sortOption := if savedSort.Some? then savedSort.value else RatingDesc;
    }

    /** `savedRatings[key] = rec`: the whole record is replaced and no other key changes. */
    method Save(key: string, rec: AlbumRecord)
      requires Valid()
      modifies this
      ensures Valid()
      ensures entries == Assign(old(entries), key, rec)
      ensures sortOption == old(sortOption)
      ensures Get(key) == Some(rec)
      ensures forall k | k != key :: Get(k) == old(Get(k))
    {
      AssignSpec(entries, key, rec);
      entries := Assign(entries, key, rec);
    }

    /**
     * The submit handler: a form that fails validation saves nothing and
     * reports the error; otherwise the record is saved under the
     * normalized album name and the key is returned.
     */
    method Submit(sub: Submission, albumDisplayName: string) returns (r: Result<string, string>)
      requires Valid()
      modifies this
      ensures Valid()
      ensures sortOption == old(sortOption)
      ensures Validate(sub.form).Err? ==> r == Err(InvalidForm) && entries == old(entries)
      ensures Validate(sub.form).Ok? ==> r == Ok(NormalizeAlbumName(albumDisplayName))
      ensures Validate(sub.form).Ok? ==>
        var key := NormalizeAlbumName(albumDisplayName);
        Get(key).Some? &&
        Get(key).value == SavedRecord(sub, Validate(sub.form).value, Get(key).value.songs) &&
        SongsFrom(sub.individual, sub.songValues, Get(key).value.songs) &&
        entries == Assign(old(entries), key, Get(key).value)
      ensures forall k | k != NormalizeAlbumName(albumDisplayName) :: Get(k) == old(Get(k))
    {
      var songs := BuildSongs(sub.individual, sub.songValues);
      var scores := Validate(sub.form);
      if scores.Err? {
        return Err(scores.error);
      }
      var key := NormalizeAlbumName(albumDisplayName);
      var rec := SavedRecord(sub, scores.value, songs);
      Save(key, rec);
      r := Ok(key);
    }

    /** `deleteRating(albumKey)`, with the confirmation accepted. */
    method Delete(albumKey: string)
      requires Valid()
      modifies this
      ensures Valid()
      ensures sortOption == old(sortOption)
      ensures albumKey == "" || !HasKey(old(entries), albumKey) ==> entries == old(entries)
      ensures albumKey != "" ==> entries == Remove(old(entries), albumKey) && Get(albumKey).None?
      ensures forall k | k != albumKey :: Get(k) == old(Get(k))
    {
      if albumKey == "" {
        return;
      }
      if !HasKey(entries, albumKey) {
        return;
      }
      RemoveSpec(entries, albumKey);
      entries := Remove(entries, albumKey);
    }

    /**
     * `renderAllRatings(sortOption, page)` without the markup: it remembers
     * the sort, and for a non-empty collection lists the rows of the page
     * with the trophies the renderer shows and the pager around `page`
     * (`currentPage = page`).
     */
    method ShowRatings(opt: SortOption, page: int)
      returns (rows: seq<Row>, buttons: seq<PageButton>)
      requires Valid()
      modifies this
      ensures Valid() && entries == old(entries) && sortOption == opt
      ensures entries == [] ==> rows == [] && buttons == []
      ensures entries != [] ==>
        var sorted := SortEntries(opt, entries);
        var pageRows := PageOf(sorted, page);
        |rows| == |pageRows| &&
        (forall k | 0 <= k < |rows| :: rows[k].0 == pageRows[k]) &&
        (forall k | 0 <= k < |rows| ::
          rows[k].1 == TrophyAsWritten(opt, rows[k].0, Tables(opt, sorted, |sorted|).0, Tables(opt, sorted, |sorted|).1))
      ensures entries != [] ==> buttons == Pager(TotalPages(|entries|), page)
    {
      sortOption := opt;
      rows, buttons := [], [];
      if |entries| == 0 {
        return;
      }
      var sorted := SortEntries(opt, entries);
      var totalPages := TotalPages(|entries|);
      var pageRows := PageOf(sorted, page);
      var bestByGroup, bestOverall := BestRatedTags(sorted, opt);
      rows := TagRows(opt, pageRows, bestByGroup, bestOverall);
      buttons := PagerButtons(totalPages, page);
    }
  }
}
