# Album Rater — a verified model of its rating logic

The album rater is a browser app. It keeps personal album ratings keyed by
normalised album name, together with a remembered sort order. Its logic is
all in `albumRatings.js`. This project models the part of that file that
computes rather than draws. The pieces are:

- **text helpers:** key normalisation, display casing, genre
  canonicalisation, HTML escaping, glow bands, acronyms and Spotify album ids;
- **scoring on save:** form validation, the weighted score with its rounding
  and clamp, the song-average calculator and the songs map;
- **the store:** the saved ratings and the sort preference, with submit and
  delete;
- **the listing:** the eight sort orders, five-per-page windows, the
  page-button list and the best-rated trophies;
- **the search box:** Levenshtein distance, fuzzy suggestions, the decision
  `searchAlbum` takes, and the acronym table;
- **the analytics panel:** decade statistics, top-three decades and genres,
  the genre ranking, and the per-artist breakdown with its pages.

## How the model is laid out

| module | file | what it holds |
|---|---|---|
| `Wrappers` | wrappers.dfy | `Option`, `Result`, `Parsed` (a number or NaN) |
| `Text` | text.dfy | trim, ASCII case mapping, `normalizeAlbumName`, `capitalizeAlbumName`, `capitalizeFirst`, `normalizeGenre`, `escapeHTML` |
| `Tokens` | tokens.dfy | numerals, the `/\s+/` split, `generateAcronym`, the year pattern, ISO dates, `extractSpotifyAlbumId` |
| `Records` | records.dfy | the rating record and the collection, an insertion-ordered association list read as a map |
| `Scoring` | scoring.dfy | `getGlowClass`, validation, weighted score, the song-average loop, the songs map |
| `Ordering` | ordering.dfy | `localeCompare` stand-in, the stable sort, stability and uniqueness facts |
| `Listing` | listing.dfy | comparators, page slicing, the pager button list |
| `Trophies` | trophies.dfy | `getBestRatedTags` and the trophy on a row |
| `Store` | store.dfy | class `RatingStore` (saved ratings and sort option), submit, delete, show |
| `Distance` | distance.dfy | `levenshtein` over a 2-D array |
| `Search` | search.dfy | `fuzzyMatch`, the `searchAlbum` decision, `getAcronymMap` |
| `Groups` | groups.dfy | grouping by key in first-seen order, as the analytics dictionaries do |
| `Analytics` | analytics.dfy | `getDecadeStats`, top-three lists, genre ranking, `groupByArtist`, the artist listing |

### How the model represents things

- **The saved collection and key order.** The collection is a sequence of
  `(key, record)` pairs with distinct keys. A JavaScript object enumerates
  string keys in insertion order, and the listings, the stable sorts, the
  first-seen trophy tie-break and the dictionaries built by the analytics
  all depend on that order.
- **Numbers.** Numbers are exact `real`s.
- **Rounding.** `+x.toFixed(2)` is `Scoring.Round2`. It rounds to the
  nearest hundredth, with halves going away from zero.
- **Ratings.** A stored rating is `Numeric(r)`, or one of the sentinels `S`
  (skip) and `I` (interlude).
- **Parsed values.** `parseFloat` and `parseInt` results are `Num(v)` or
  `NaN`.
- **Loops that build dictionaries.** `getDecadeStats`, the genre tallies,
  `groupByArtist`, `getAcronymMap`, `getBestRatedTags`, the song average,
  the pager and `levenshtein` are methods with loops. Each is proved equal
  to a specification function, and the promised properties are lemmas about
  that function.
- **Where the model follows the code rather than the description.**
  - A sentinel rating in a sum does not drop out. JavaScript's `0 + "S"`
    concatenates strings, so the total, and therefore the average of that
    group, becomes NaN (`Analytics.SentinelPoisons`,
    `Analytics.SentinelAverageIsNaN`).
  - A missing release date sorts as 1970-01-01 (`|| 0`), not as the
    earliest possible date.

## Model

| member | source | states |
|---|---|---|
| Text.NormalizeAlbumName | albumRatings.js:17-19 | the key has no whitespace at either end and no upper-case letter, and is the lower-casing of `name` with a leading and a trailing whitespace run removed |
| Text.NormalizeIdempotent | albumRatings.js:17-19 | normalising a key again gives the same key |
| Text.NormalizeCaseVariant | albumRatings.js:17-19 | names differing only by upper-casing get the same key |
| Text.TrimSpec | albumRatings.js:18 | `trim` removes exactly a whitespace prefix and suffix and leaves a string trimmed at both ends |
| Text.TrimIdempotent | albumRatings.js:18 | trimming twice is trimming once |
| Text.TrimEmptyIff | albumRatings.js:18 | the trimmed string is empty exactly when the input is all whitespace |
| Text.JoinSplit | albumRatings.js:22-25 | splitting on a separator and joining again gives the input back, and no piece holds the separator |
| Text.CapitalizeAlbumName | albumRatings.js:21-26 | same length; each character that starts a space-separated piece is upper-cased and every other character is kept |
| Text.SavedKeyIsLookedUpKey | albumRatings.js:394-396 | normalising the capitalised display name gives the key the search looked up, so the save path writes where the search reads |
| Text.CapitalizeFirst | albumRatings.js:28-32 | a non-string or empty string gives ""; otherwise the first character is upper-cased and the rest lower-cased |
| Text.CapitalizeFirstCaseInsensitive | albumRatings.js:28-32 | two non-empty strings get the same label exactly when they agree up to case |
| Text.NormalizeGenreEmptyIff | albumRatings.js:81-89 | the genre label is empty exactly for a non-empty, all-whitespace genre |
| Text.NormalizeGenre | albumRatings.js:81-89 | a missing or empty genre is "Unknown Genre"; otherwise the label is "Rap", "R&B" or "Electronic" exactly when the trimmed, lower-cased genre is in that label's synonym list, and the trimmed genre when it is in none |
| Text.RapIsFixed | albumRatings.js:84 | "Rap" normalises to itself |
| Text.RnbIsFixed | albumRatings.js:85 | "R&B" normalises to itself |
| Text.ElectronicIsFixed | albumRatings.js:86 | "Electronic" normalises to itself |
| Text.UnknownIsFixed | albumRatings.js:82 | "Unknown Genre" normalises to itself |
| Text.NormalizeGenreIdempotent | albumRatings.js:81-89 | normalising a non-empty genre label again gives the same label |
| Text.EscapeStrNoMarkup | albumRatings.js:12-14 | the escaped text holds none of `< > " '` as raw characters |
| Text.EscapeStrAmpersands | albumRatings.js:12-14 | every `&` in the escaped text begins one of the five entities, so no `&` stands alone |
| Text.UnescapeEscape | albumRatings.js:12-14 | decoding the five entities gives the original string back |
| Text.EscapeHtml | albumRatings.js:10-15 | a non-string gives ""; the output holds none of `< > " '` and every `&` in it begins an entity; decoding gives the input back, so every other character is kept in order |
| Text.ParsedTextWithoutTags | albumRatings.js:432 | text with no `<` reads back from markup with only its entities decoded |
| Text.PlainTextReadsBack | albumRatings.js:432 | text with no `<` and no `&` reads back from markup unchanged |
| Text.EscapedTextReadsBack | albumRatings.js:10-15 | the output of `escapeHTML` reads back from markup as the original text |
| Tokens.ParseNatToString | albumRatings.js:907 | reading back the numeral of a number gives the number |
| Tokens.NatToStringInjective | albumRatings.js:907 | distinct numbers get distinct numerals |
| Tokens.SplitWs | albumRatings.js:871 | `split(/\s+/)` yields at least one piece and no piece holds whitespace |
| Tokens.GenerateAcronym | albumRatings.js:868-880 | an acronym holds no whitespace and no upper-case letter, with at most two characters per piece of the title |
| Tokens.AcronymSpec | albumRatings.js:868-880 | the acronym is, piece by piece of the lower-cased title split on whitespace runs, "lp" for a piece "lp", nothing for an empty piece and the first character otherwise, with a first piece "the" (and only the first) dropped |
| Tokens.FindYearFromSpec | albumRatings.js:901 | the search finds the leftmost match at or after `p` of the word-bounded `19xx`/`20xx` pattern, and none exactly when there is no match |
| Tokens.ExtractYear | albumRatings.js:899-903 | the year lies in 1900..2099, comes from the leftmost match, and is absent exactly when nothing matches |
| Tokens.DecadeLabelInjective | albumRatings.js:907 | two years share a decade label only when they are in the same decade |
| Tokens.NinetyFourIsNineties | albumRatings.js:901-907 | "1994-03-01" yields year 1994, whose label is "1990s" |
| Tokens.FindAlbumIdFromSpec | albumRatings.js:495 | the id search returns the capture at the leftmost match of `album\/([a-zA-Z0-9]+)(\?\|$)`, and none exactly when nothing matches |
| Tokens.ExtractSpotifyAlbumId | albumRatings.js:493-497 | a non-string gives none; an id is non-empty and alphanumeric and is the leftmost match's capture; none exactly when nothing matches |
| Tokens.ExtractFromAlbumUrl | albumRatings.js:493-497 | the id read from a Spotify album link, with or without a query string, is the id it was built from |
| Records.RatingValue | albumRatings.js:115 | `parseFloat(rating)` is a number exactly for a numeric rating, and it is that number |
| Records.Lookup | albumRatings.js:384 | `savedRatings[key]` is absent exactly when no entry has the key, else it is that entry's record |
| Records.Assign | albumRatings.js:699-702 | an existing key keeps its position and gets the new record; a new key is appended; nothing else moves |
| Records.AssignSpec | albumRatings.js:699-702 | assigning keeps keys distinct, sets the key and leaves every other key's record alone |
| Records.RemoveSpec | albumRatings.js:723 | removing keeps keys distinct, removes the key and leaves every other key's record alone |
| Records.RemoveKeepsOther | albumRatings.js:723 | deleting one key does not change what another key reads |
| Scoring.Round2 | albumRatings.js:695 | the result has at most two decimals and is within half a hundredth of the input |
| Scoring.Round2Monotone | albumRatings.js:695 | rounding never reverses an order |
| Scoring.GetGlowClass | albumRatings.js:71-79 | "S" is the skip band, "I" falls to the top band (every NaN comparison is false), and a number lands in the band whose thresholds 2, 4, 6, 7, 8, 9 enclose it |
| Scoring.GlowMonotone | albumRatings.js:71-79 | a higher rating never gets a lower band |
| Scoring.Validate | albumRatings.js:689-692 | a form is accepted exactly when the written guard accepts it and the skip count is a number; an accepted form yields the four factors in [1, 10] and non-negative skips; a rejected one yields the alert text |
| Scoring.AcceptsAsWritten | albumRatings.js:689 | the guard as written: the four factors are numbers in [1, 10] and the skip count is not negative, NaN included |
| Scoring.FinalRating | albumRatings.js:694-695 | the rating lies in [1, 10] with two decimals; it is 1 when the score is at most 1, 10 when the score is at least 10, and otherwise within half a hundredth of the score |
| Scoring.WeightedScore | albumRatings.js:694 | with the four factors in range, the weighted score lies between 1 and 10, less 0.2 per skip |
| Scoring.SkipsNeverRaise | albumRatings.js:694-695 | more skips never give a higher rating |
| Scoring.ExtremeRatings | albumRatings.js:694-695 | (10, 10, 10, 10, 0 skips) rates 10 and (1, 1, 1, 1, 0 skips) rates 1 |
| Scoring.AcceptedFormScoresInRange | albumRatings.js:689-695 | every form the intended guard accepts is saved with a rating that is a number in [1, 10] |
| Scoring.NaNSkipsSlipThrough | albumRatings.js:689-695 | the written guard accepts an empty skip field, and the rating saved is then NaN |
| Scoring.ScoreAsWritten | albumRatings.js:689-695 | under the written guard the saved rating is NaN exactly when the skip count is NaN; otherwise it is the final rating of the accepted form, a number in [1, 10] with two decimals |
| Scoring.SongContribution | albumRatings.js:639-647 | "I" adds nothing, "S" adds one skip, a number in [1, 10] adds itself and one count, and anything else adds nothing |
| Scoring.TallyAppend | albumRatings.js:638-648 | the tally of two runs of boxes is the sum of their tallies |
| Scoring.InterludeIgnored | albumRatings.js:640 | an "I" box anywhere changes nothing |
| Scoring.SkipCounted | albumRatings.js:641 | an "S" box anywhere only adds one skip |
| Scoring.TallySkipsAreSBoxes | albumRatings.js:641 | the skips the loop counts are exactly the "S" boxes |
| Scoring.TallyBounds | albumRatings.js:643-647 | the total lies between `count` and 10 × `count`, and counted songs plus skips never exceed the boxes |
| Scoring.AverageInRange | albumRatings.js:659 | when some song counted, the rounded average lies in [1, 10] |
| Scoring.SongAverage | albumRatings.js:634-663 | the skip count is the number of "S" boxes; there is no average exactly when no song counted, otherwise it is total/count rounded and lies in [1, 10] |
| Scoring.SongTitleInjective | albumRatings.js:685 | distinct boxes get distinct "Song n" titles |
| Scoring.BuildSongs | albumRatings.js:677-687 | outside individual mode the map is empty; otherwise box `i` is saved under "Song i+1" exactly when its trimmed upper-cased text is non-empty, with that text, and nothing else is saved |
| Ordering.LexCompare | albumRatings.js:150-155 | the comparison is -1, 0 or 1, and 0 exactly for equal strings |
| Ordering.LexCompareFlip | albumRatings.js:152-155 | swapping the arguments negates the comparison |
| Ordering.LexCompareTransitive | albumRatings.js:152-155 | "not after" is transitive |
| Ordering.SortByPermutation | albumRatings.js:159 | sorting returns a permutation of its input |
| Ordering.SortBySorted | albumRatings.js:159 | with a comparator that is a total preorder on the elements, the result is sorted |
| Ordering.SortByStable | albumRatings.js:159 | elements that compare equal keep their input order |
| Ordering.SortedPermutationUnique | albumRatings.js:159 | two sorted permutations are equal when the comparator separates the elements |
| Ordering.ReverseSorted | albumRatings.js:150-151 | a list sorted by a comparator reads backwards sorted by the flipped comparator |
| Ordering.Take | albumRatings.js:1006 | `slice(0, n)` has length min(n, length) and is a prefix |
| Listing.Comparator | albumRatings.js:149-158 | each of the eight comparators gives the sign of the source's comparison (all the sort reads), and swapping its arguments negates it |
| Listing.SortEntries | albumRatings.js:148-159 | every sort order lists each saved rating exactly once: the result is a permutation |
| Listing.RatingDescOrdered | albumRatings.js:151 | "ratingDesc" is non-increasing in rating, with equal ratings in ascending key order |
| Listing.RatingAscOrdered | albumRatings.js:150 | "ratingAsc" is non-decreasing in rating, with equal ratings in ascending key order |
| Listing.RatingSortsReverse | albumRatings.js:150-151 | with no two equal ratings, "ratingDesc" is "ratingAsc" reversed |
| Listing.TextSortOrdered | albumRatings.js:152-155 | an artist or genre sort orders by that field, A to Z or Z to A, and equal fields keep their saved order |
| Listing.DateSortOrdered | albumRatings.js:156-157 | with empty or ISO release dates, a date sort orders by day (an empty date counting as 1970-01-01), and same-day records keep their saved order |
| Listing.TotalPages | albumRatings.js:162 | the fewest pages of five that hold `n` items |
| Listing.PageOf | albumRatings.js:163-164 | page `p` is items 5(p-1) up to 5p, cut at the end; it has at most five items, and a page past the last one is empty |
| Listing.PagesCoverList | albumRatings.js:162-164 | pages 1 to ceil(n/5), one after another, are exactly the sorted list |
| Listing.ChainedIncreasing | albumRatings.js:266-280 | in a pager list the page numbers strictly increase |
| Listing.LayoutShape | albumRatings.js:272-280 | for more than five pages the list runs from 1 to the last page, has an ellipsis exactly at each gap, has at most 7 buttons, and holds exactly 1, the pages next to the current one and the last |
| Listing.PushAllPages | albumRatings.js:271 | the short pager pushes every page from 1 to the total |
| Listing.PushWindowedPages | albumRatings.js:273-279 | the long pager's pushes give that layout |
| Listing.PagerButtons | albumRatings.js:266-280 | the buttons pushed one at a time are exactly the pager list below |
| Listing.Pager | albumRatings.js:266-280 | no buttons for one page; every page up to five pages; otherwise the layout above; the current page is always listed when it is in range |
| Trophies.Label | albumRatings.js:96-108 | the label is "by" exactly for an artist sort, otherwise "in" |
| Trophies.GroupKey | albumRatings.js:94-109 | only rating sorts have no groups; an artist or decade group is never empty; a genre group is empty exactly for an all-whitespace genre |
| Trophies.RenderGroupKey | albumRatings.js:220-231 | the rendered group is never empty under a genre sort and equals the tabulated one for the other sorts; under a genre sort it equals the tabulated one exactly when the genre is empty or already in its normal form |
| Trophies.BestAtSpec | albumRatings.js:114-129 | the winner of a scope is the first competing entry whose rating none exceeds; there is none exactly when nothing with a numeric rating competes |
| Trophies.BestStep | albumRatings.js:121-128 | one more entry replaces the winner only when it competes with a strictly higher rating |
| Trophies.BestAt | albumRatings.js:114-129 | the recorded winner is one of the entries seen so far and competes in the scope |
| Trophies.OverallWinnerLeadsItsGroup | albumRatings.js:114-129 | the overall winner also wins the group it is filed under |
| Trophies.TablesAreWinners | albumRatings.js:111-131 | the group table has an entry exactly for each non-empty group with a competitor, holding its winner, and the overall entry is the overall winner |
| Trophies.RatingSortTablesEmpty | albumRatings.js:106-109 | a rating sort files nothing, so the group table stays empty |
| Trophies.BestRatedTags | albumRatings.js:91-132 | the loop's two tables are exactly the winners of every group and overall |
| Trophies.TagText | albumRatings.js:238-243 | a row shows text exactly when it has a trophy |
| Trophies.TagFor | albumRatings.js:233-243 | a row looked up under a group gets a trophy exactly when that non-empty group is tabulated with its album, labelled and named by that group, and the double trophy exactly when it is also the overall best |
| Trophies.TrophyAsWritten | albumRatings.js:220-243 | the renderer as written shows a trophy only for the group named by the row's raw genre (or artist or decade) and tabulated with its album, and none under a rating sort |
| Trophies.Trophy | albumRatings.js:220-243 | looked up under its tabulated group, a row shows a trophy only for that group tabulated with its album, and none under a rating sort |
| Trophies.TrophyIffGroupWinner | albumRatings.js:234-243 | looked up under its tabulated group, a row gets a trophy exactly when it wins its non-empty group, and the double trophy exactly when it is also the overall winner |
| Trophies.TrophyAsWrittenIff | albumRatings.js:220-243 | as written, a row gets a trophy exactly when it wins the tabulated group carrying its rendered name, and the double trophy exactly when it is also the overall winner |
| Trophies.WinnerTagIsDouble | albumRatings.js:234-240 | the overall winner, in a non-empty group, wears the double trophy |
| Trophies.RawGenreLosesTrophy | albumRatings.js:220-243 | a lone "hip-hop" album is tabulated as best in "Rap" but gets no trophy when looked up by its raw genre; looked up by its tabulated group it gets the double trophy |
| Trophies.UnnormalGenreNeverWins | albumRatings.js:225-235 | under a genre sort, an album whose genre is not already in normal form never shows a trophy, because the table (filled under `normalizeGenre` at line 95) has no group of that name |
| Store.TagRows | albumRatings.js:210-243 | each row on the page is paired, in order, with the trophy the renderer as written shows on it |
| Store.RatingStore.Get | albumRatings.js:384 | a record is found exactly when the key is saved |
| Store.RatingStore.constructor | albumRatings.js:6 | an empty collection; the sort preference is the saved one, else "ratingDesc" |
| Store.RatingStore.Save | albumRatings.js:699-704 | the key's record is replaced, every other key reads as before, and the sort preference is unchanged |
| Store.RatingStore.Submit | albumRatings.js:665-704 | a form the guard rejects saves nothing and reports the alert; a NaN skip count also saves nothing, standing for the browser's `required` check on `#skips` (line 525) rather than for the handler; an accepted one saves a record under the normalised display name with the final rating, trimmed text fields and the songs map, and changes no other key |
| Store.RatingStore.Delete | albumRatings.js:716-724 | an empty or absent key leaves the collection unchanged; otherwise the key is gone and every other key reads as before |
| Store.RatingStore.ShowRatings | albumRatings.js:134-280 | the sort is remembered; an empty collection shows nothing; otherwise the rows are the requested page of the sorted list with the trophies the renderer as written shows, and the pager is built for ceil(n/5) pages around the requested page |
| Distance.LevAtStep | albumRatings.js:857-862 | each cell off the first row and column is the minimum of a deletion, an insertion and a substitution (free when the characters agree) |
| Distance.FillRow | albumRatings.js:856-863 | the inner loop fills row `i` from the row above and the cell to its left, and leaves later rows alone |
| Distance.Levenshtein | albumRatings.js:850-866 | the bottom-right cell of the filled table is the edit distance |
| Distance.LevSelf | albumRatings.js:850-866 | a string is at distance 0 from itself |
| Distance.LevZeroIff | albumRatings.js:850-866 | the distance is 0 exactly for equal strings |
| Distance.LevSymmetric | albumRatings.js:850-866 | the distance does not depend on argument order |
| Distance.LevBounds | albumRatings.js:850-866 | the distance is at least the difference of the lengths and at most the longer length |
| Search.FuzzyMatch | albumRatings.js:842-848 | a candidate is kept exactly when its key is at most three edits from the input's key |
| Search.FuzzyMatchConcat | albumRatings.js:844 | the filter keeps candidates in their order: it distributes over concatenation |
| Search.ExactCandidateMatches | albumRatings.js:842-848 | a candidate with the input's key is always suggested |
| Search.ArtistMatches | albumRatings.js:406-408 | the artist suggestions are exactly the keys of the records whose artist is close to the key |
| Search.AlbumInput | albumRatings.js:379 | without an override the input is the trimmed field |
| Search.SearchAlbum | albumRatings.js:379-474 | empty input without a prefill key is an error; suggestions come exactly when the key is not saved, no override is given and some album key or artist is close; a saved record asked for view-only is shown; otherwise the form opens prefilled with the saved record, if any |
| Search.SuggestionShowsRating | albumRatings.js:412-434 | for a saved key without `<` or `&`, the suggestion button's text reads back as the capitalised key, and clicking it finds and shows the saved rating it names |
| Search.MarkupSuggestionMissesRating | albumRatings.js:412-434 | as written, the saved key "x<b>" is inserted unescaped, its button reads back as "X", and the click searches "x", which shows no rating |
| Search.EscapedSuggestionShowsRating | albumRatings.js:412-434 | with the button text escaped by `escapeHTML`, every suggestion, whatever its characters, finds and shows its saved rating |
| Search.RateAnywayOpensForm | albumRatings.js:425-428 | "rate anyway" searches again with the typed name as override and opens a form for it |
| Search.AcronymWrites | albumRatings.js:884-888 | one write per entry, in key order: its acronym (from the display name, else the key) to its key |
| Search.AcronymMap | albumRatings.js:882-890 | the loop's map is the result of those writes in order |
| Search.WrittenKeys | albumRatings.js:887 | a key is in the written map exactly when some write names it |
| Search.WrittenLastWins | albumRatings.js:887 | a key holds the value of the last write to it |
| Search.AcronymTableKeys | albumRatings.js:882-890 | the acronyms in the table are exactly the entries' acronyms |
| Search.AcronymLastWins | albumRatings.js:882-890 | an acronym maps to the key of the last entry that has it |
| Groups.GroupByIsGrouping | albumRatings.js:1057-1070 | the first-seen grouping has distinct names, each group holds exactly its members in input order, a group exists exactly for each name some item has, and every grouped item is counted once |
| Groups.MembersEmptyIff | albumRatings.js:908 | a group has members exactly when some item names it |
| Groups.GroupsNonEmpty | albumRatings.js:908-910 | every group is non-empty |
| Groups.MemberSource | albumRatings.js:1062 | each member of a group comes from an item with that group |
| Groups.MemberAt | albumRatings.js:1062 | each item with a group is one of its members |
| Analytics.TotalBounds | albumRatings.js:908-911 | a running total of ratings in [1, 10] is a number between `n` and 10n |
| Analytics.SentinelPoisons | albumRatings.js:908-911 | one sentinel rating in the sum turns the total into a string, so no number results |
| Analytics.MeanInRange | albumRatings.js:915 | the rounded average of ratings in [1, 10] is a number in [1, 10] |
| Analytics.TallyBucket | albumRatings.js:908-911 | counting an item into its group equals tallying the grouping with that item added |
| Analytics.TallyRatings | albumRatings.js:895-912 | the loop's stats are the count and total of each first-seen group |
| Analytics.Summaries | albumRatings.js:914-917 | the second loop turns each count and total into a count and a rounded average |
| Analytics.SummaryOfGroups | albumRatings.js:892-920 | the rows have distinct names, one exactly for each group with members; each count equals its members, is at least 1, with the average their rounded mean; the counts sum to the grouped items |
| Analytics.AveragesInRange | albumRatings.js:915 | with ratings in [1, 10] every group average is a number in [1, 10] |
| Analytics.SentinelAverageIsNaN | albumRatings.js:908-917 | a group holding a sentinel rating averages to NaN |
| Analytics.DecadeOf | albumRatings.js:899-907 | a record is counted exactly when its release date has a year no later than 2025, under that year's decade label |
| Analytics.NinetyFourCountsAsNineties | albumRatings.js:899-907 | "1994-03-01" is counted in the "1990s" |
| Analytics.LateYearNotCounted | albumRatings.js:905 | a year after 2025 is not counted |
| Analytics.DecadeItems | albumRatings.js:895-907 | each record, in key order, paired with its decade (or none) and its rating |
| Analytics.DecadeStats | albumRatings.js:892-920 | `getDecadeStats` is the decade summary of the records |
| Analytics.DecadeMembers | albumRatings.js:905-910 | a decade has members exactly when some record falls in it |
| Analytics.DecadeStatsSpec | albumRatings.js:892-920 | one row exactly for each decade some record falls in, with distinct names; counts at least 1 and equal to the records counted there; averages their rounded mean; counts summing to the counted records |
| Analytics.GenreText | albumRatings.js:1019 | the genre text (`genre?.trim() \|\| "Unknown"`) is never empty |
| Analytics.GenreNameCaseInsensitive | albumRatings.js:1019 | two genres share a label exactly when their texts agree up to case |
| Analytics.GenreItems | albumRatings.js:1018-1019 | each record paired with its genre label and its rating |
| Analytics.GenreStatsSpec | albumRatings.js:1016-1030 | one row exactly for each genre label some record has, with distinct names; counts at least 1 and equal to that genre's records; averages their rounded mean; counts summing to the number of records |
| Analytics.AvgDescOrdered | albumRatings.js:1004-1006 | with every average a number, sorting by average descending gives non-increasing averages |
| Analytics.TopBeatsRest | albumRatings.js:1004-1006 | every row in the top three has an average at least that of any row left out |
| Analytics.TopRated | albumRatings.js:1004-1006 | the top list has min(3, n) rows, all drawn from the summary |
| Analytics.TopRatedSpec | albumRatings.js:1002-1013 | the top list has min(3, n) rows, all drawn from the summary, with non-increasing averages, each at least any row left out |
| Analytics.TopRatedDecades | albumRatings.js:1002-1013 | the top-rated decades are the top three of the decade summary |
| Analytics.TopRatedGenres | albumRatings.js:1015-1035 | the top-rated genres are the top three of the genre summary |
| Analytics.GenreRankingSpec | albumRatings.js:1167-1173 | the ranking is a permutation of the summary ordered by count descending, then by average descending |
| Analytics.GenreRanking | albumRatings.js:1167-1173 | the ranking is a permutation of the summary |
| Analytics.GenreBreakdown | albumRatings.js:1160-1173 | the genre breakdown is that ranking of the genre summary |
| Analytics.SavedLinkIsDropped | albumRatings.js:1059-1068 | for any records, one saved with a Spotify link is listed under its artist without the link and with it nowhere; the intended breakdown lists it with the link |
| Analytics.AccumulateBucket | albumRatings.js:1061-1069 | pushing an album onto its artist equals accumulating the grouping with that album added |
| Analytics.CollectArtists | albumRatings.js:1057-1070 | the first loop's dictionary holds each artist's albums, in key order, with their total |
| Analytics.FinishArtists | albumRatings.js:1072-1082 | the second loop adds each artist's rounded average and sorts their albums by release date |
| Analytics.ArtistItems | albumRatings.js:1058-1068 | each record paired with its artist (or "Unknown Artist") and the album entry pushed as written |
| Analytics.ArtistAlbumOf | albumRatings.js:1062-1068 | the intended album entry: its name normalises back to the record's key, and it keeps the record's rating, date, genre and Spotify link |
| Analytics.ArtistAlbumAsWritten | albumRatings.js:1062-1068 | the album entry as written differs from the intended one in the link alone, which is always missing, and equals it exactly when the record has no link |
| Analytics.GroupByArtist | albumRatings.js:1054-1085 | `groupByArtist` is the artist breakdown of the records, built from the album entries as written |
| Analytics.FinishedGroups | albumRatings.js:1072-1082 | each artist row has its albums date-sorted, their total and their rounded average |
| Analytics.AlbumCountOfGroups | albumRatings.js:1054-1085 | the rows together list as many albums as were grouped |
| Analytics.BreakdownSpec | albumRatings.js:1054-1085 | distinct artists, one row exactly per artist with albums; each row non-empty, a permutation of that artist's albums, averaged by their rounded mean; the rows list every album once |
| Analytics.BreakdownOrigin | albumRatings.js:1062-1068 | every album listed under an artist comes from an item of that artist |
| Analytics.BreakdownLists | albumRatings.js:1062-1068 | every item is listed under its artist |
| Analytics.DateSortedAlbums | albumRatings.js:1077-1081 | with empty or ISO dates, the date sort gives non-decreasing days |
| Analytics.BreakdownByDate | albumRatings.js:1077-1081 | each artist's albums are in non-decreasing release-date order |
| Analytics.ArtistBreakdownSpec | albumRatings.js:1054-1085 | every record, and only records, is in exactly one non-empty artist row; rows have distinct artists; a row exactly for each artist some record names; averages are rounded means; album count equals the record count |
| Analytics.ListedAlbumOrigin | albumRatings.js:1059-1068 | every album listed under an artist is the as-written entry of a record by that artist, so no listed album has a Spotify link |
| Analytics.LinkedAlbumOrigin | albumRatings.js:1059-1068 | in the intended breakdown every album listed under an artist is the entry of a record by that artist, link included |
| Analytics.RecordListedUnderArtist | albumRatings.js:1059-1068 | every record's as-written entry is listed under its artist |
| Analytics.ArtistAlbumsByDate | albumRatings.js:1077-1081 | with empty or ISO release dates, every artist's albums are listed oldest first |
| Analytics.ArtistAverageInRange | albumRatings.js:1073-1074 | with numeric ratings in [1, 10], every artist average is a number in [1, 10] |
| Analytics.ArtistTotalPages | albumRatings.js:1096 | the fewest pages of five that hold the artists |
| Analytics.ArtistAvgOrdered | albumRatings.js:1093-1094 | artists sorted by average descending have non-increasing averages |
| Analytics.ArtistPageSpec | albumRatings.js:1093-1098 | the sorted artists are a permutation with non-increasing averages, and page `p` is the window 5(p-1) up to 5p of them, at most five |
| Analytics.ArtistPage | albumRatings.js:1096-1098 | an artist page has at most five artists, and a page past the last one is empty |
| Analytics.ArtistListing | albumRatings.js:1088-1098 | the artist listing shows that page of the breakdown and its page count |

## Left out

- DOM construction is abstracted away:
  - markup strings, `innerHTML`, icons, the sort selector, the pager's arrow
    buttons, the artist pager buttons (albumRatings.js:1121-1127);
  - event listeners, including the duplicated registrations at
    albumRatings.js:347-357;
  - toasts, `alert`, the favicon and CSS classes.
  The model returns the decisions those pieces display.
- `confirm` in `deleteRating` is taken as accepted. It is a user dialog.
- `localStorage` and JSON round-tripping are host I/O. The store holds the
  collection and the sort preference directly, and the constructor takes the
  saved preference as a parameter.
- The UI globals (`editMode`, `ratingsVisible`, `currentPage`,
  `currentArtistPage`) and the form fields are parameters. The edit, toggle
  and view switching (`editRating`, `toggleRatings`, `setupEventListeners`,
  `switchAnalyticsTab`) only route between screens.
- `renderDecadeChart` and the chart part of `renderGenreBreakdown` call
  Chart.js, a foreign library. Only the statistics and rankings they display
  are modelled.
- `renderRatingForm`, `wireUpRatingForm`'s mode toggle and "generate inputs"
  button, `populateAlbumSuggestions` and `getVisibleMetadata` only fill in
  form fields and markup.
- `formatDate`, `toLocaleDateString` and `new Date(...)` parsing depend on
  the locale and time zone.
  - A release date is modelled as an ISO "YYYY-MM-DD" day, the empty date
    as 1970-01-01, and anything else as an Invalid Date.
  - The trophy decade takes the year of an ISO date, ignoring any
    time-zone shift.
- Floating point is modelled with exact reals:
  - ratings are exact reals;
  - `toFixed(2)` is exact rounding of halves away from zero;
  - `parseFloat`/`parseInt` results are given as parsed values;
  - song inputs are a tagged variant, not strings to parse.
- `localeCompare` collation is approximated by code-point order. Case
  mapping is ASCII-only, an approximation of Unicode `toLowerCase` and
  `toUpperCase`.
- JavaScript lists integer-like keys such as "1989" before other keys of an
  object. The model keeps every key in insertion order.
- Sort option strings outside the eight selector values cannot be
  expressed. `sorters[sortOption]` would then be `undefined` and sort by
  the default string order.
- Comparators that meet NaN are not modelled exactly.
  - Analytics.AvgDesc treats a NaN average as a tie. A NaN comparator
    result breaks transitivity, and how the engine sorts then is not
    specified. The ordering lemmas therefore assume numeric averages.
  - Listing.DateCompare does the same for Invalid Dates; the date-sort
    lemmas assume empty or ISO dates.
  - Listing.RatingThenKey falls back to the key comparison when `b - a` is
    NaN, which is the case whenever a rating is "S" or "I". It is then
    cyclic: 3 "a", S "m" and 5 "z" give a before m, m before z and z
    before a. The engine's order is then unspecified, and
    Listing.SortEntries picks the insertion sort's order.
    Listing.RatingDescOrdered and Listing.RatingAscOrdered assume numeric
    ratings.
- `getBestRatedTags` also returns `groupKeyFn` and `groupLabel`, which its
  caller discards. They are not modelled, apart from `Trophies.Label`.
- `Trophies.TagText` states only that a row shows text exactly when it has a
  trophy. The literal emoji text and class names are presentation.
- Analytics.GroupByArtist builds new summaries instead of mutating in
  place. The source adds `avgRating` to each artist's entry and sorts its
  `albums` array in place, keeping `total`. The model produces the same
  values, but not that aliasing.
- Analytics.DecadeStats builds new rows. The source adds `avgRating` and
  deletes `totalRating` in place (albumRatings.js:915-918).
- Analytics.DecadeStats and the genre, artist and trophy loops group over a
  precomputed item sequence. Each record's decade, genre label or artist is
  worked out before the loop instead of inside it.

- Store.RatingStore.Submit: the form's own HTML constraints are modelled
  only for the skip count. Every factor is `required` with `min="1"
  max="10"` (albumRatings.js:511 and 522-524); the handler's guard enforces
  the same range. `#skips` is `required min="0" step="1"`
  (albumRatings.js:525), and a browser that validates the form blocks an
  empty skip field before the submit handler runs, without an alert.
  Submit rejects a NaN skip count in place of that browser check (through
  Scoring.Validate). The handler alone would save a NaN rating, as
  Scoring.AcceptsAsWritten, Scoring.ScoreAsWritten and Finding (a) show.
  On that path `Err(InvalidForm)` stands for the blocked submission, not
  for the alert.
- Records.Lookup: a JavaScript object also answers inherited names such as
  "constructor", "toString" and "__proto__". The model's lookup finds only
  saved keys. With the inherited names:
  - `savedRatings["constructor"]` is a function, so a search for
    "Constructor" treats the unsaved key as existing
    (albumRatings.js:396 and 404);
  - `groupByArtist` throws a TypeError for an artist named "constructor",
    "toString" or "__proto__", because `grouped[artist]` is inherited and
    has no `albums` (albumRatings.js:1061-1062);
  - `getBestRatedTags` never records a group of such a name
    (albumRatings.js:121).
- Store.RatingStore.Get: the same gap as Records.Lookup. Inherited
  prototype names are not modelled as answers.
- Text.ParsedText models only the part of HTML parsing the suggestion
  buttons meet. A `<` before a letter or `/` opens a tag up to the next `>`,
  and the five entities `escapeHTML` writes are decoded. Other named and
  numeric entities, comments and the tree the parser builds are not
  modelled.
- JavaScript strings count UTF-16 code units in `length` and indexing. The
  model counts characters. The two differ for astral characters such as
  emoji, which changes the Levenshtein distance and the `word[0]` that
  `generateAcronym` takes.

## Findings

| source | as written | input that shows it | evidently intended | confidence | as-written member | corrected member |
|---|---|---|---|---|---|---|
| albumRatings.js:689-695 | the guard tests `skips < 0`, which is false when the skip field is empty and `parseInt` gives NaN | factors 5, 5, 5, 5 and an empty skip field: accepted by the handler, and the rating is NaN, which `JSON.stringify` writes to `localStorage` as `null`; the field is `required` (line 525), so this needs a browser that skips form validation | reject a skip count that is not a number, so every saved rating is a number in [1, 10] | low (not executed) | Scoring.NaNSkipsSlipThrough | Scoring.AcceptedFormScoresInRange |
| albumRatings.js:225 | the row renderer looks the trophy up under the raw genre, while the table was filled under `normalizeGenre` (line 95) | one album with genre "hip-hop", rated 8, under a genre sort: tabulated as best in "Rap" and overall, but shown without a trophy | look the row up under the normalised genre it was tabulated in | high (not executed) | Trophies.UnnormalGenreNeverWins | Trophies.TrophyIffGroupWinner |
| albumRatings.js:1067 | the artist breakdown reads `album.spotifyUrl`, but the save path writes `spotifyURL` (line 701) | a record saved with a Spotify album link: its artist entry has no link | read `album.spotifyURL` | high (not executed) | Analytics.SavedLinkIsDropped | Analytics.LinkedAlbumOrigin |
| albumRatings.js:412-417 | the suggestion buttons insert `capitalizeAlbumName(m)` into `innerHTML` unescaped, and the click reads `btn.textContent` back (line 432) | a rating saved under "x<b>": its suggestion button reads "X", and the click searches "x", which is not saved; "&amp;" reads back as "&" the same way | escape the button text with `escapeHTML`, as the rest of the page does, so the text reads back as the key (this also closes the markup injection) | high (not executed) | Search.MarkupSuggestionMissesRating | Search.EscapedSuggestionShowsRating |
