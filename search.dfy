/**
 * The search box: fuzzy suggestions, the decision
 * `searchAlbum` takes before it draws anything, and the acronym table.
 */
module Search {
  import opened Wrappers
  import opened Text
  import opened Tokens
  import opened Records
  import opened Distance

  // ---------------------------------------------------------------------
  // fuzzyMatch

  /** `fuzzyMatch`'s default `maxDistance`. */
  const MaxDistance: nat := 3

  /** The album names of `input` and `candidate` are at most three edits apart. */
  predicate Close(input: string, candidate: string) {
    Lev(NormalizeAlbumName(input), NormalizeAlbumName(candidate)) <= MaxDistance
  }

  /**
   * `fuzzyMatch(input, candidates)`: the candidates close to `input`, and
   * nothing else.
   */
  function FuzzyMatch(input: string, candidates: seq<string>): (matches: seq<string>)
    ensures |matches| <= |candidates|
    ensures forall c :: c in matches <==> c in candidates && Close(input, c)
  {
    if candidates == [] then []
    else
      var n := |candidates| - 1;
      assert candidates == candidates[..n] + [candidates[n]];
      FuzzyMatch(input, candidates[..n]) + (if Close(input, candidates[n]) then [candidates[n]] else [])
  }

  /** One more candidate at the end is kept exactly when it is close. */
  lemma FuzzyMatchSnoc(input: string, xs: seq<string>, c: string)
    ensures FuzzyMatch(input, xs + [c]) == FuzzyMatch(input, xs) + (if Close(input, c) then [c] else [])
  {
    assert (xs + [c])[..|xs|] == xs;
  }

  /** The filter keeps the candidates' order: it distributes over concatenation. */
  lemma {:induction false} FuzzyMatchConcat(input: string, xs: seq<string>, ys: seq<string>)
    ensures FuzzyMatch(input, xs + ys) == FuzzyMatch(input, xs) + FuzzyMatch(input, ys)
    decreases |ys|
  {
    if ys == [] {
      assert xs + ys == xs;
    } else {
      var n := |ys| - 1;
      var c := ys[n];
      assert ys == ys[..n] + [c];
      assert xs + ys == (xs + ys[..n]) + [c];
      FuzzyMatchConcat(input, xs, ys[..n]);
      FuzzyMatchSnoc(input, xs + ys[..n], c);
      FuzzyMatchSnoc(input, ys[..n], c);
    }
  }

  /** A candidate with the same album key as the input is always suggested. */
  lemma ExactCandidateMatches(input: string, candidates: seq<string>, c: string)
    requires c in candidates && NormalizeAlbumName(c) == NormalizeAlbumName(input)
    ensures c in FuzzyMatch(input, candidates)
  {
    LevSelf(NormalizeAlbumName(input));
  }

  /** The keys of the entries whose artist is close to `key` (the artist suggestions). */
  function ArtistMatches(key: string, saved: seq<Entry>): (keys: seq<string>)
    ensures |keys| <= |saved|
    ensures forall k :: k in keys <==> exists e :: e in saved && e.0 == k && Close(key, e.1.artist)
  {
    if saved == [] then []
    else
      var n := |saved| - 1;
      assert saved == saved[..n] + [saved[n]];
      ArtistMatches(key, saved[..n]) + (if Close(key, saved[n].1.artist) then [saved[n].0] else [])
  }

  // ---------------------------------------------------------------------
  // searchAlbum

  /**
   * A call `searchAlbum(event, prefillKey, forceViewOnly, overrideInput)`,
   * with `typed` the content of the album-name field. `None` is `null`.
   */
  datatype Request = Request(prefillKey: Option<string>, forceViewOnly: bool, overrideInput: Option<string>, typed: string)

  /** What the search shows. */
  datatype Outcome =
    | EmptyInput
    | Suggestions(albumMatches: seq<string>, artistMatches: seq<string>, rateAnyway: string)
    | View(key: string, displayName: string, rec: AlbumRecord)
    | Form(key: string, displayName: string, existing: Option<AlbumRecord>, editMode: bool)

  /** The message shown for `EmptyInput`. */
  const EmptyInputMessage := "Please enter an album name."

  /** A JavaScript truthiness test on a string that may be `null`. */
  predicate Truthy(s: Option<string>) {
    s.Some? && s.value != ""
  }

  /** `overrideInput ?? field.value.trim()`: an override is taken as it is. */
  function AlbumInput(req: Request): (input: string)
    ensures req.overrideInput.None? ==> Trimmed(input)
  {
    TrimSpec(req.typed);
    if req.overrideInput.Some? then req.overrideInput.value else Trim(req.typed)
  }

  /** The key looked up: the prefill key as it is, otherwise the normalised input. */
  function SearchKey(req: Request): string {
    if Truthy(req.prefillKey) then req.prefillKey.value else NormalizeAlbumName(AlbumInput(req))
  }

  /** The title shown above the form or the rating. */
  function SearchDisplayName(req: Request): string {
    CapitalizeAlbumName(if Truthy(req.prefillKey) then req.prefillKey.value else AlbumInput(req))
  }

  /**
   * The decision of `searchAlbum`. An empty input without a prefill key is
   * an error. Suggestions are offered only when the key is not saved, no
   * override was given and some album key or artist is close to the key.
   * Otherwise a saved rating asked for view-only is shown, and in every
   * other case the form opens, pre-filled with the saved record when there
   * is one.
   */
  function SearchAlbum(saved: seq<Entry>, req: Request): (out: Outcome)
    ensures out.EmptyInput? <==> !Truthy(req.prefillKey) && AlbumInput(req) == ""
    ensures out.Suggestions? <==>
      !out.EmptyInput? && !HasKey(saved, SearchKey(req)) && !Truthy(req.overrideInput) &&
      (FuzzyMatch(SearchKey(req), Keys(saved)) != [] || ArtistMatches(SearchKey(req), saved) != [])
    ensures out.Suggestions? ==>
      out.albumMatches == FuzzyMatch(SearchKey(req), Keys(saved)) &&
      out.artistMatches == ArtistMatches(SearchKey(req), saved) &&
      (forall m | m in out.albumMatches :: m in Keys(saved) && Close(SearchKey(req), m)) &&
      out.rateAnyway == AlbumInput(req)
    ensures out.View? <==> !out.EmptyInput? && !out.Suggestions? && HasKey(saved, SearchKey(req)) && req.forceViewOnly
    ensures out.View? ==>
      out.key == SearchKey(req) && out.displayName == SearchDisplayName(req) &&
      Some(out.rec) == Lookup(saved, out.key)
    ensures out.Form? ==>
      out.key == SearchKey(req) && out.displayName == SearchDisplayName(req) &&
      out.existing == Lookup(saved, out.key) &&
      (out.editMode <==> Truthy(req.prefillKey) && !req.forceViewOnly)
  {
    var input := AlbumInput(req);
    if !Truthy(req.prefillKey) && input == "" then EmptyInput
    else
      var key := SearchKey(req);
      var existing := Lookup(saved, key);
      var editMode := Truthy(req.prefillKey) && !req.forceViewOnly;
      var albumMatches := FuzzyMatch(key, Keys(saved));
      var artistMatches := ArtistMatches(key, saved);
      if existing.None? && !Truthy(req.overrideInput) && (albumMatches != [] || artistMatches != []) then
        Suggestions(albumMatches, artistMatches, input)
      else if existing.Some? && req.forceViewOnly then View(key, SearchDisplayName(req), existing.value)
      else Form(key, SearchDisplayName(req), existing, editMode)
  }

  /** Every key under which a rating is saved is a normalised, non-empty album name. */
  ghost predicate KeysNormalized(saved: seq<Entry>) {
    forall e | e in saved :: e.0 != "" && NormalizeAlbumName(e.0) == e.0
  }

  /** The search a click on a suggestion button starts, given the markup the button holds. */
  function ClickRequest(buttonHtml: string, typed: string): Request {
    Request(Some(NormalizeAlbumName(ParsedText(buttonHtml))), true, None, typed)
  }

  /**
   * Clicking a suggestion (an album match or an artist match, both saved
   * keys): the button holds `capitalizeAlbumName(m)` inserted unescaped, and
   * its `textContent` is searched view-only after `normalizeAlbumName`. For a
   * key without `<` or `&` the text reads back unchanged, so the saved
   * rating of `m` is shown again.
   */
  lemma SuggestionShowsRating(saved: seq<Entry>, m: string, typed: string)
    requires KeysNormalized(saved) && m in Keys(saved)
    requires forall k | 0 <= k < |m| :: m[k] != '<' && m[k] != '&'
    ensures SearchAlbum(saved, ClickRequest(CapitalizeAlbumName(m), typed)) ==
      View(m, CapitalizeAlbumName(m), Lookup(saved, m).value)
  {
    CapitalizeKeepsPlain(m);
    PlainTextReadsBack(CapitalizeAlbumName(m));
    SavedKeyIsLookedUpKey(m);
    ViewSavedKey(saved, m, typed);
  }

  /** Capitalising adds no `<` and no `&`. */
  lemma CapitalizeKeepsPlain(m: string)
    requires forall k | 0 <= k < |m| :: m[k] != '<' && m[k] != '&'
    ensures forall k | 0 <= k < |CapitalizeAlbumName(m)| ::
      CapitalizeAlbumName(m)[k] != '<' && CapitalizeAlbumName(m)[k] != '&'
  {
  }

  /** A view-only search for a saved, normalised key shows its rating. */
  lemma ViewSavedKey(saved: seq<Entry>, m: string, typed: string)
    requires KeysNormalized(saved) && m in Keys(saved)
    ensures SearchAlbum(saved, Request(Some(m), true, None, typed)) ==
      View(m, CapitalizeAlbumName(m), Lookup(saved, m).value)
  {
    var i := KeyIndex(saved, m);
    assert saved[i] in saved;
  }

  /**
   * As written, a saved key holding markup is not found again from its
   * suggestion: the button for "x<b>" reads back as "X", which searches the
   * unsaved key "x".
   */
  lemma MarkupSuggestionMissesRating(rec: AlbumRecord, typed: string)
    ensures var saved := [("x<b>", rec)];
      KeysNormalized(saved) && "x<b>" in Keys(saved) &&
      ParsedText(CapitalizeAlbumName("x<b>")) == "X" &&
      !SearchAlbum(saved, ClickRequest(CapitalizeAlbumName("x<b>"), typed)).View?
  {
    MarkupKeyIsNormal();
    MarkupButtonText();
    var saved := [("x<b>", rec)];
    assert Lookup(saved, "x").None?;
  }

  /** "x<b>" is already a normalised key. */
  lemma MarkupKeyIsNormal()
    ensures NormalizeAlbumName("x<b>") == "x<b>"
  {
    assert Trim("x<b>") == "x<b>";
    assert LowerStr("x<b>") == "x<b>";
  }

  /** The button for "x<b>" holds "X<b>", whose text is "X". */
  lemma MarkupButtonText()
    ensures ParsedText(CapitalizeAlbumName("x<b>")) == "X"
    ensures NormalizeAlbumName("X") == "x"
  {
    var display := CapitalizeAlbumName("x<b>");
    assert display == "X<b>";
    assert AfterTag(display[2..]) == [];
    assert ParsedText(display[1..]) == [];
    assert Trim("X") == "X";
  }

  /**
   * With the button text escaped as the rest of the page escapes its text,
   * every suggestion finds its saved rating again.
   */
  lemma EscapedSuggestionShowsRating(saved: seq<Entry>, m: string, typed: string)
    requires KeysNormalized(saved) && m in Keys(saved)
    ensures SearchAlbum(saved, ClickRequest(EscapeHtml(Some(CapitalizeAlbumName(m))), typed)) ==
      View(m, CapitalizeAlbumName(m), Lookup(saved, m).value)
  {
    EscapedTextReadsBack(CapitalizeAlbumName(m));
    SavedKeyIsLookedUpKey(m);
    ViewSavedKey(saved, m, typed);
  }

  /**
   * The "rate anyway" button after suggestions for a typed name searches
   * again with that name as override, which opens an empty form for it.
   */
  lemma RateAnywayOpensForm(saved: seq<Entry>, req: Request, typed: string)
    requires !Truthy(req.prefillKey)
    requires SearchAlbum(saved, req).Suggestions?
    ensures var input := SearchAlbum(saved, req).rateAnyway;
      SearchAlbum(saved, Request(None, false, Some(input), typed)) ==
        Form(NormalizeAlbumName(input), CapitalizeAlbumName(input), None, false)
  {
  }

  // ---------------------------------------------------------------------
  // getAcronymMap

  /** The name an entry's acronym is taken from: its display name, else its key. */
  function AcronymSource(e: Entry): string {
    if e.1.displayName != "" then e.1.displayName else e.0
  }

  function AcronymOf(e: Entry): string {
    GenerateAcronym(AcronymSource(e))
  }

  /** The map left by the writes `w[0]`, `w[1]`, ... in order: a later write to a key wins. */
  function Written(w: seq<(string, string)>): map<string, string> {
    if w == [] then map[] else Written(w[..|w| - 1])[w[|w| - 1].0 := w[|w| - 1].1]
  }

  /** The writes `getAcronymMap` makes: each entry's acronym to its key, in key order. */
  function AcronymWrites(s: seq<Entry>): (w: seq<(string, string)>)
    ensures |w| == |s| && forall j | 0 <= j < |s| :: w[j] == (AcronymOf(s[j]), s[j].0)
  {
    seq(|s|, j requires 0 <= j < |s| => (AcronymOf(s[j]), s[j].0))
  }

  /** `getAcronymMap(ratings)`: one write per entry, in key order. */
  method AcronymMap(ratings: seq<Entry>) returns (m: map<string, string>)
    ensures m == Written(AcronymWrites(ratings))
  {
    ghost var w := AcronymWrites(ratings);
    m := map[];
    var i := 0;
    while i < |ratings|
      invariant 0 <= i <= |ratings|
      invariant m == Written(w[..i])
    {
      assert w[..i + 1][..i] == w[..i];
      assert w[i] == (AcronymOf(ratings[i]), ratings[i].0);
      assert Written(w[..i + 1]) == Written(w[..i])[w[i].0 := w[i].1];
      m := m[AcronymOf(ratings[i]) := ratings[i].0];
      i := i + 1;
    }
    assert w[..|ratings|] == w;
  }

  /** The keys written are exactly the keys of the writes. */
  lemma {:induction false} WrittenKeys(w: seq<(string, string)>, k: string)
    ensures k in Written(w) <==> exists j :: 0 <= j < |w| && w[j].0 == k
    decreases |w|
  {
    if w != [] {
      var n := |w| - 1;
      WrittenKeys(w[..n], k);
      if exists j :: 0 <= j < n && w[..n][j].0 == k {
        var j :| 0 <= j < n && w[..n][j].0 == k;
        assert w[j].0 == k;
      }
      if exists j :: 0 <= j < |w| && w[j].0 == k {
        var j :| 0 <= j < |w| && w[j].0 == k;
        if j < n {
          assert w[..n][j].0 == k;
        }
      }
    }
  }

  /** A key holds the value of the last write to it. */
  lemma {:induction false} WrittenLastWins(w: seq<(string, string)>, j: int)
    requires 0 <= j < |w|
    requires forall k | j < k < |w| :: w[k].0 != w[j].0
    ensures w[j].0 in Written(w) && Written(w)[w[j].0] == w[j].1
    decreases |w|
  {
    var n := |w| - 1;
    if j < n {
      assert forall k | j < k < n :: w[..n][k] == w[k];
      WrittenLastWins(w[..n], j);
    }
  }

  /** The acronyms in the table are exactly the acronyms of the entries. */
  lemma AcronymTableKeys(s: seq<Entry>, a: string)
    ensures a in Written(AcronymWrites(s)) <==> exists j :: 0 <= j < |s| && AcronymOf(s[j]) == a
  {
    var w := AcronymWrites(s);
    WrittenKeys(w, a);
    if exists j :: 0 <= j < |w| && w[j].0 == a {
      var j :| 0 <= j < |w| && w[j].0 == a;
      assert AcronymOf(s[j]) == a;
    }
  }

  /** An acronym maps to the key of the last entry that has it. */
  lemma AcronymLastWins(s: seq<Entry>, j: int)
    requires 0 <= j < |s|
    requires forall k | j < k < |s| :: AcronymOf(s[k]) != AcronymOf(s[j])
    ensures AcronymOf(s[j]) in Written(AcronymWrites(s)) && Written(AcronymWrites(s))[AcronymOf(s[j])] == s[j].0
  {
    var w := AcronymWrites(s);
    assert forall k | j < k < |w| :: w[k].0 != w[j].0;
    WrittenLastWins(w, j);
  }
}
