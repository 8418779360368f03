/**
 * Small lexical pieces of the album rater: decimal numerals, the `/\s+/`
 * split and album acronyms, the year pattern used by the decade statistics,
 * ISO release dates, and Spotify album ids.
 */
module Tokens {
  import opened Wrappers
  import opened Text

  // ---------------------------------------------------------------------
  // Decimal numerals (template-literal formatting of non-negative integers)

  predicate IsDigit(c: char) { '0' <= c <= '9' }

  function DigitChar(d: nat): (c: char)
    requires d < 10
    ensures IsDigit(c)
  {
    ('0' as int + d) as char
  }

  function DigitValue(c: char): nat
    requires IsDigit(c)
  {
    c as int - '0' as int
  }

  /** `${n}` for a non-negative integer. */
  function NatToString(n: nat): (s: string)
    ensures |s| >= 1
    ensures forall k | 0 <= k < |s| :: IsDigit(s[k])
    decreases n
  {
    if n < 10 then [DigitChar(n)] else NatToString(n / 10) + [DigitChar(n % 10)]
  }

  /** The value of a non-empty string of decimal digits (`parseInt`). */
  function ParseDigits(s: string): nat
    requires |s| >= 1
    requires forall k | 0 <= k < |s| :: IsDigit(s[k])
    decreases |s|
  {
    if |s| == 1 then DigitValue(s[0])
    else ParseDigits(s[..|s| - 1]) * 10 + DigitValue(s[|s| - 1])
  }

  /** Reading back a numeral gives the number it was written from. */
  lemma {:induction false} ParseNatToString(n: nat)
    ensures ParseDigits(NatToString(n)) == n
    decreases n
  {
    if n >= 10 {
      ParseNatToString(n / 10);
      var s := NatToString(n);
      assert s[..|s| - 1] == NatToString(n / 10);
    }
  }

  /** Distinct numbers are written as distinct numerals. */
  lemma NatToStringInjective(a: nat, b: nat)
    requires NatToString(a) == NatToString(b)
    ensures a == b
  {
    ParseNatToString(a);
    ParseNatToString(b);
  }

  // ---------------------------------------------------------------------
  // `str.split(/\s+/)`

  /** Length of the longest prefix of `s` with no whitespace. */
  function WordLength(s: string): (n: nat)
    ensures n <= |s|
    ensures forall k | 0 <= k < n :: !IsSpace(s[k])
    ensures n < |s| ==> IsSpace(s[n])
  {
    if s == [] || IsSpace(s[0]) then 0 else 1 + WordLength(s[1..])
  }

  /** `s` without its leading whitespace run. */
  function DropSpaces(s: string): (r: string)
    ensures |r| <= |s|
    ensures |s| > 0 && IsSpace(s[0]) ==> |r| < |s|
  {
    if |s| > 0 && IsSpace(s[0]) then DropSpaces(s[1..]) else s
  }

  /**
   * `s.split(/\s+/)`: the pieces between maximal whitespace runs. A leading
   * or trailing run yields an empty first or last piece, and "" yields [""].
   */
  function SplitWs(s: string): (words: seq<string>)
    ensures |words| >= 1
    ensures forall w | w in words :: forall k | 0 <= k < |w| :: !IsSpace(w[k])
    decreases |s|
  {
    var n := WordLength(s);
    if n == |s| then [s] else [s[..n]] + SplitWs(DropSpaces(s[n..]))
  }

  /** What one word contributes to an acronym: "lp" gives "LP", "" gives nothing. */
  function AcronymPiece(w: string): string {
    if w == "lp" then "LP" else if w == [] then [] else [w[0]]
  }

  function ConcatPieces(words: seq<string>): string {
    if words == [] then [] else AcronymPiece(words[0]) + ConcatPieces(words[1..])
  }

  /**
   * `generateAcronym`: lower-case, split on whitespace runs, drop "the" when
   * it is the piece at split index 0, take the first letter of each piece
   * ("lp" contributing "lp"), lower-case again. The result holds no
   * whitespace and no upper-case ASCII letter, and has at most two
   * characters per piece; `AcronymSpec` gives its value.
   */
  function GenerateAcronym(title: string): (a: string)
    ensures forall k | 0 <= k < |a| :: !IsSpace(a[k]) && !IsUpperAscii(a[k])
    ensures |a| <= 2 * |SplitWs(LowerStr(title))|
  {
    var words := SplitWs(LowerStr(title));
    var kept := if words[0] == "the" then words[1..] else words;
    assert forall w | w in kept :: w in words;
    ConcatPiecesNoSpace(kept);
    LowerNoSpaceNoUpper(ConcatPieces(kept));
    LowerStr(ConcatPieces(kept))
  }

  /**
   * What one piece of the lower-cased title gives the finished acronym:
   * "lp" gives "lp", an empty piece nothing, and any other piece its first
   * character, lower-cased.
   */
  function Initial(w: string): string {
    if w == "lp" then "lp" else if w == [] then [] else [Lower(w[0])]
  }

  /** The initials of the pieces, joined in order. */
  function Initials(words: seq<string>): string {
    if words == [] then [] else Initial(words[0]) + Initials(words[1..])
  }

  lemma LowerConcat(a: string, b: string)
    ensures LowerStr(a + b) == LowerStr(a) + LowerStr(b)
  {
  }

  lemma {:induction false} LowerPieces(words: seq<string>)
    ensures LowerStr(ConcatPieces(words)) == Initials(words)
  {
    if words != [] {
      var w := words[0];
      LowerPieces(words[1..]);
      LowerConcat(AcronymPiece(w), ConcatPieces(words[1..]));
      if w == "lp" {
        assert LowerStr("LP") == "lp";
      } else if w != [] {
        assert LowerStr([w[0]]) == [Lower(w[0])];
      }
    }
  }

  /**
   * The acronym of a title is the join of the initials of its lower-cased
   * whitespace-separated pieces, with the piece at split index 0 left out
   * exactly when it is "the".
   */
  lemma AcronymSpec(title: string)
    ensures var words := SplitWs(LowerStr(title));
      GenerateAcronym(title) == Initials(if words[0] == "the" then words[1..] else words)
  {
    var words := SplitWs(LowerStr(title));
    LowerPieces(if words[0] == "the" then words[1..] else words);
  }

  lemma {:induction false} ConcatPiecesNoSpace(words: seq<string>)
    requires forall w | w in words :: forall k | 0 <= k < |w| :: !IsSpace(w[k])
    ensures forall k | 0 <= k < |ConcatPieces(words)| :: !IsSpace(ConcatPieces(words)[k])
    ensures |ConcatPieces(words)| <= 2 * |words|
  {
    if words != [] {
      assert forall w | w in words[1..] :: w in words;
      ConcatPiecesNoSpace(words[1..]);
      var p, r := AcronymPiece(words[0]), ConcatPieces(words[1..]);
      assert words[0] in words;
      forall k | 0 <= k < |p + r| ensures !IsSpace((p + r)[k]) {
        if k < |p| { assert (p + r)[k] == p[k]; } else { assert (p + r)[k] == r[k - |p|]; }
      }
    }
  }

  lemma LowerNoSpaceNoUpper(c: string)
    requires forall k | 0 <= k < |c| :: !IsSpace(c[k])
    ensures forall k | 0 <= k < |LowerStr(c)| :: !IsSpace(LowerStr(c)[k]) && !IsUpperAscii(LowerStr(c)[k])
  {
    forall k | 0 <= k < |c| ensures !IsSpace(LowerStr(c)[k]) {
      LowerKeepsSpace(c[k]);
    }
  }

  // ---------------------------------------------------------------------
  // The year pattern `/\b(19|20)\d{2}\b/`

  predicate IsWordChar(c: char) {
    ('a' <= c <= 'z') || ('A' <= c <= 'Z') || IsDigit(c) || c == '_'
  }

  /** `\b` at position `p` of `s`. */
  predicate BoundaryAt(s: string, p: int)
    requires 0 <= p <= |s|
  {
    (p > 0 && IsWordChar(s[p - 1])) != (p < |s| && IsWordChar(s[p]))
  }

  /** A match of `\b(19|20)\d{2}\b` starts at `p`. */
  predicate YearMatchAt(s: string, p: int) {
    0 <= p && p + 4 <= |s| && BoundaryAt(s, p) &&
    ((s[p] == '1' && s[p + 1] == '9') || (s[p] == '2' && s[p + 1] == '0')) &&
    IsDigit(s[p + 2]) && IsDigit(s[p + 3]) && BoundaryAt(s, p + 4)
  }

  function YearValueAt(s: string, p: int): nat
    requires YearMatchAt(s, p)
  {
    ParseDigits(s[p..p + 4])
  }

  /** The leftmost match of the year pattern at or after `p`. */
  function FindYearFrom(s: string, p: nat): (y: Option<nat>)
    decreases |s| - p
  {
    if p + 4 > |s| then None
    else if YearMatchAt(s, p) then Some(YearValueAt(s, p))
    else FindYearFrom(s, p + 1)
  }

  lemma {:induction false} FindYearFromSpec(s: string, p: nat)
    ensures FindYearFrom(s, p).None? <==> forall q | p <= q :: !YearMatchAt(s, q)
    ensures FindYearFrom(s, p).Some? ==>
      exists q :: p <= q && YearMatchAt(s, q) && FindYearFrom(s, p).value == YearValueAt(s, q) &&
        forall r | p <= r < q :: !YearMatchAt(s, r)
    decreases |s| - p
  {
    if p + 4 <= |s| && !YearMatchAt(s, p) {
      FindYearFromSpec(s, p + 1);
      if FindYearFrom(s, p).Some? {
        var q :| p + 1 <= q && YearMatchAt(s, q) && FindYearFrom(s, p).value == YearValueAt(s, q) &&
          forall r | p + 1 <= r < q :: !YearMatchAt(s, r);
        assert forall r | p <= r < q :: !YearMatchAt(s, r);
      }
    }
  }

  lemma YearValueRange(s: string, p: int)
    requires YearMatchAt(s, p)
    ensures 1900 <= YearValueAt(s, p) <= 2099
  {
    var w := s[p..p + 4];
    assert w[..3][..2] == w[..2];
    assert w[..2][..1] == w[..1];
    assert ParseDigits(w[..2]) == DigitValue(w[0]) * 10 + DigitValue(w[1]);
    assert ParseDigits(w[..3]) == ParseDigits(w[..2]) * 10 + DigitValue(w[2]);
    assert ParseDigits(w) == ParseDigits(w[..3]) * 10 + DigitValue(w[3]);
  }

  /**
   * The year `getDecadeStats` reads from a release-date string: the value of
   * the leftmost word-bounded `19xx` / `20xx`, or `None` when there is none.
   */
  function ExtractYear(date: string): (y: Option<nat>)
    ensures y.Some? ==> 1900 <= y.value <= 2099
    ensures y.None? <==> forall q :: !YearMatchAt(date, q)
    ensures y.Some? ==>
      exists p :: YearMatchAt(date, p) && y.value == YearValueAt(date, p) &&
                  forall q | 0 <= q < p :: !YearMatchAt(date, q)
  {
    FindYearFromSpec(date, 0);
    FoundYearRange(date);
    FindYearFrom(date, 0)
  }

  lemma FoundYearRange(date: string)
    ensures FindYearFrom(date, 0).Some? ==> 1900 <= FindYearFrom(date, 0).value <= 2099
  {
    FindYearFromSpec(date, 0);
    if FindYearFrom(date, 0).Some? {
      var p :| 0 <= p && YearMatchAt(date, p) && FindYearFrom(date, 0).value == YearValueAt(date, p) &&
        forall r | 0 <= r < p :: !YearMatchAt(date, r);
      YearValueRange(date, p);
    }
  }

  /** `${Math.floor(year / 10) * 10}s`. */
  function DecadeLabel(year: nat): string {
    NatToString(year / 10 * 10) + "s"
  }

  /** Distinct decades get distinct labels. */
  lemma DecadeLabelInjective(y1: nat, y2: nat)
    requires DecadeLabel(y1) == DecadeLabel(y2)
    ensures y1 / 10 == y2 / 10
  {
    var a, b := NatToString(y1 / 10 * 10), NatToString(y2 / 10 * 10);
    assert |a + "s"| == |b + "s"|;
    assert a == (a + "s")[..|a|];
    assert b == (b + "s")[..|b|];
    NatToStringInjective(y1 / 10 * 10, y2 / 10 * 10);
  }

  lemma Parse1994()
    ensures ParseDigits("1994") == 1994
  {
    assert "1994"[..3] == "199" && "199"[..2] == "19" && "19"[..1] == "1";
  }

  lemma Write1990()
    ensures NatToString(1990) == "1990"
  {
    assert NatToString(1) == "1";
    assert NatToString(19) == "19";
    assert NatToString(199) == "199";
  }

  /** A release date of "1994-03-01" is counted in the "1990s". */
  lemma NinetyFourIsNineties()
    ensures ExtractYear("1994-03-01") == Some(1994)
    ensures DecadeLabel(1994) == "1990s"
  {
    var s := "1994-03-01";
    assert YearMatchAt(s, 0);
    assert s[0..4] == "1994";
    Parse1994();
    Write1990();
  }

  // ---------------------------------------------------------------------
  // ISO release dates ("YYYY-MM-DD", what a date input yields)

  predicate IsIsoDate(s: string) {
    |s| == 10 && IsDigit(s[0]) && IsDigit(s[1]) && IsDigit(s[2]) && IsDigit(s[3]) && s[4] == '-' &&
    IsDigit(s[5]) && IsDigit(s[6]) && s[7] == '-' && IsDigit(s[8]) && IsDigit(s[9]) &&
    1 <= ParseDigits(s[5..7]) <= 12 && 1 <= ParseDigits(s[8..10]) <= 31
  }

  /** The calendar year of an ISO date; `None` stands for an Invalid Date. */
  function IsoYear(s: string): Option<nat> {
    if IsIsoDate(s) then Some(ParseDigits(s[..4])) else None
  }

  /**
   * A number that orders ISO dates as their time values do: YYYYMMDD.
   * `None` stands for an Invalid Date (time value NaN).
   */
  function IsoOrdinal(s: string): Option<nat> {
    if IsIsoDate(s) then Some(ParseDigits(s[..4]) * 10000 + ParseDigits(s[5..7]) * 100 + ParseDigits(s[8..10]))
    else None
  }

  /** `new Date(0)`, 1970-01-01, as an ordinal. */
  const EpochOrdinal: nat := 19700101

  // ---------------------------------------------------------------------
  // `url.match(/album\/([a-zA-Z0-9]+)(\?|$)/)`

  predicate IsAlnum(c: char) {
    ('a' <= c <= 'z') || ('A' <= c <= 'Z') || IsDigit(c)
  }

  /** Length of the longest prefix of `s` made of `[a-zA-Z0-9]`. */
  function AlnumLength(s: string): (n: nat)
    ensures n <= |s|
    ensures forall k | 0 <= k < n :: IsAlnum(s[k])
    ensures n < |s| ==> !IsAlnum(s[n])
  {
    if s == [] || !IsAlnum(s[0]) then 0 else 1 + AlnumLength(s[1..])
  }

  /**
   * The pattern matches at `p`: "album/" at `p`, then a non-empty maximal
   * alphanumeric run followed by `?` or the end of the string (a shorter run
   * would be followed by an alphanumeric character, so backtracking cannot help).
   */
  predicate AlbumMatchAt(s: string, p: int) {
    0 <= p && p + 6 <= |s| && s[p..p + 6] == "album/" &&
    var n := AlnumLength(s[p + 6..]);
    n > 0 && (p + 6 + n == |s| || s[p + 6 + n] == '?')
  }

  function AlbumIdAt(s: string, p: int): string
    requires AlbumMatchAt(s, p)
  {
    s[p + 6..p + 6 + AlnumLength(s[p + 6..])]
  }

  function FindAlbumIdFrom(s: string, p: nat): Option<string>
    decreases |s| - p
  {
    if p + 6 > |s| then None
    else if AlbumMatchAt(s, p) then Some(AlbumIdAt(s, p))
    else FindAlbumIdFrom(s, p + 1)
  }

  lemma {:induction false} FindAlbumIdFromSpec(s: string, p: nat)
    ensures FindAlbumIdFrom(s, p).None? <==> forall q | p <= q :: !AlbumMatchAt(s, q)
    ensures FindAlbumIdFrom(s, p).Some? ==>
      exists q :: p <= q && AlbumMatchAt(s, q) && FindAlbumIdFrom(s, p).value == AlbumIdAt(s, q) &&
        forall r | p <= r < q :: !AlbumMatchAt(s, r)
    decreases |s| - p
  {
    if p + 6 <= |s| && !AlbumMatchAt(s, p) {
      FindAlbumIdFromSpec(s, p + 1);
      if FindAlbumIdFrom(s, p).Some? {
        var q :| p + 1 <= q && AlbumMatchAt(s, q) && FindAlbumIdFrom(s, p).value == AlbumIdAt(s, q) &&
          forall r | p + 1 <= r < q :: !AlbumMatchAt(s, r);
        assert forall r | p <= r < q :: !AlbumMatchAt(s, r);
      }
    }
  }

  /**
   * `extractSpotifyAlbumId`: `None` as argument stands for a non-string. The
   * id is the run captured at the leftmost match; it is non-empty and
   * alphanumeric, and there is no id when nothing matches.
   */
  function ExtractSpotifyAlbumId(url: Option<string>): (id: Option<string>)
    ensures url.None? ==> id.None?
    ensures url.Some? ==> (id.None? <==> forall q :: !AlbumMatchAt(url.value, q))
    ensures id.Some? ==> |id.value| > 0 && forall k | 0 <= k < |id.value| :: IsAlnum(id.value[k])
    ensures id.Some? ==>
      exists p :: AlbumMatchAt(url.value, p) && id.value == AlbumIdAt(url.value, p) &&
                  forall q | 0 <= q < p :: !AlbumMatchAt(url.value, q)
  {
    if url.None? then None
    else
      FindAlbumIdFromSpec(url.value, 0);
      FindAlbumIdFrom(url.value, 0)
  }

  const SpotifyHost: string := "https://open.spotify.com/"

  /** A Spotify album link with an optional query string. */
  function SpotifyAlbumUrl(id: string, query: Option<string>): string {
    SpotifyHost + "album/" + id + (if query.Some? then "?" + query.value else "")
  }

  lemma HostHasNoA()
    ensures forall q | 0 <= q < |SpotifyHost| :: SpotifyHost[q] != 'a'
  {
  }

  /** Positions before the first 'a' cannot start a match. */
  lemma {:induction false} FindAlbumIdSkips(s: string, p: nat, k: nat)
    requires p <= k <= |s|
    requires forall q | p <= q < k :: s[q] != 'a'
    ensures FindAlbumIdFrom(s, p) == FindAlbumIdFrom(s, k)
    decreases k - p
  {
    if p < k {
      if p + 6 <= |s| {
        assert s[p..p + 6][0] == s[p];
      }
      FindAlbumIdSkips(s, p + 1, k);
    }
  }

  /** The search passes over the host part of a link. */
  lemma HostIsSkipped(t: string)
    ensures FindAlbumIdFrom(SpotifyHost + t, 0) == FindAlbumIdFrom(SpotifyHost + t, |SpotifyHost|)
  {
    var u := SpotifyHost + t;
    HostHasNoA();
    forall q | 0 <= q < |SpotifyHost| ensures u[q] != 'a' {
      assert u[q] == SpotifyHost[q];
    }
    FindAlbumIdSkips(u, 0, |SpotifyHost|);
  }

  /** "album/", an alphanumeric id and then `?` or the end match right where "album/" starts. */
  lemma MatchAtAlbum(pre: string, id: string, rest: string)
    requires |id| > 0 && forall k | 0 <= k < |id| :: IsAlnum(id[k])
    requires rest == [] || rest[0] == '?'
    ensures AlbumMatchAt(pre + ("album/" + id + rest), |pre|)
    ensures AlbumIdAt(pre + ("album/" + id + rest), |pre|) == id
  {
    var u := pre + ("album/" + id + rest);
    var h := |pre|;
    assert u[h..h + 6] == "album/";
    assert u[h + 6..] == id + rest;
    AlnumPrefixLength(id, rest);
    assert u[h + 6..h + 6 + |id|] == id;
  }

  /** The id of a Spotify album link is the id it was built from. */
  lemma ExtractFromAlbumUrl(id: string, query: Option<string>)
    requires |id| > 0 && forall k | 0 <= k < |id| :: IsAlnum(id[k])
    ensures ExtractSpotifyAlbumId(Some(SpotifyAlbumUrl(id, query))) == Some(id)
  {
    var rest := if query.Some? then "?" + query.value else "";
    var t := "album/" + id + rest;
    assert SpotifyAlbumUrl(id, query) == SpotifyHost + t;
    HostIsSkipped(t);
    MatchAtAlbum(SpotifyHost, id, rest);
  }

  lemma {:induction false} AlnumPrefixLength(id: string, rest: string)
    requires forall k | 0 <= k < |id| :: IsAlnum(id[k])
    requires rest == [] || !IsAlnum(rest[0])
    ensures AlnumLength(id + rest) == |id|
  {
    if id != [] {
      assert (id + rest)[1..] == id[1..] + rest;
      AlnumPrefixLength(id[1..], rest);
    } else {
      assert id + rest == rest;
    }
  }
}
