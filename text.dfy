/**
 * Text helpers of the album rater: key normalisation, display casing,
 * genre canonicalisation and HTML escaping.
 *
 * Case mapping is ASCII-only (an approximation of JavaScript's Unicode
 * `toLowerCase` / `toUpperCase`); the whitespace set is exactly the
 * WhiteSpace and LineTerminator code points that `trim` and `\s` use.
 */
module Text {
  import opened Wrappers

  /** The code points JavaScript's `trim` removes and `\s` matches. */
  predicate IsSpace(c: char) {
    c == '\t' || c == '\n' || c == '\U{000B}' || c == '\U{000C}' || c == '\r' ||
    c == ' ' || c == '\U{00A0}' || c == '\U{1680}' || ('\U{2000}' <= c <= '\U{200A}') ||
    c == '\U{2028}' || c == '\U{2029}' || c == '\U{202F}' || c == '\U{205F}' ||
    c == '\U{3000}' || c == '\U{FEFF}'
  }

  predicate AllSpace(s: string) {
    forall i | 0 <= i < |s| :: IsSpace(s[i])
  }

  predicate IsUpperAscii(c: char) { 'A' <= c <= 'Z' }

  function Lower(c: char): char {
    if 'A' <= c <= 'Z' then (c as int + 32) as char else c
  }

  function Upper(c: char): char {
    if 'a' <= c <= 'z' then (c as int - 32) as char else c
  }

  function LowerStr(s: string): (r: string)
    ensures |r| == |s|
  {
    seq(|s|, i requires 0 <= i < |s| => Lower(s[i]))
  }

  /** `s.toUpperCase()` (ASCII letters only). */
  function UpperStr(s: string): (r: string)
    ensures |r| == |s|
    ensures forall i | 0 <= i < |s| :: r[i] == Upper(s[i])
  {
    seq(|s|, i requires 0 <= i < |s| => Upper(s[i]))
  }

  function TrimStart(s: string): string {
    if |s| > 0 && IsSpace(s[0]) then TrimStart(s[1..]) else s
  }

  function TrimEnd(s: string): string {
    if |s| > 0 && IsSpace(s[|s| - 1]) then TrimEnd(s[..|s| - 1]) else s
  }

  /** `String.prototype.trim`. */
  function Trim(s: string): string {
    TrimEnd(TrimStart(s))
  }

  /** True when `s` has no whitespace at either end. */
  predicate Trimmed(s: string) {
    s == [] || (!IsSpace(s[0]) && !IsSpace(s[|s| - 1]))
  }

  /** `TrimStart` cuts off a whitespace prefix and stops at the first other character. */
  lemma {:induction false} TrimStartCut(s: string) returns (i: nat)
    ensures i <= |s| && TrimStart(s) == s[i..] && AllSpace(s[..i])
    ensures i == |s| || !IsSpace(s[i])
  {
    if |s| > 0 && IsSpace(s[0]) {
      var i' := TrimStartCut(s[1..]);
      i := i' + 1;
      assert s[1..][i'..] == s[i..];
      forall k | 0 <= k < i ensures IsSpace(s[k]) {
        if k > 0 { assert s[k] == s[1..][..i'][k - 1]; }
      }
    } else {
      i := 0;
      assert s[0..] == s;
    }
  }

  /** `TrimEnd` cuts off a whitespace suffix and stops at the last other character. */
  lemma {:induction false} TrimEndCut(s: string) returns (j: nat)
    ensures j <= |s| && TrimEnd(s) == s[..j] && AllSpace(s[j..])
    ensures j == 0 || !IsSpace(s[j - 1])
  {
    if |s| > 0 && IsSpace(s[|s| - 1]) {
      var t := s[..|s| - 1];
      j := TrimEndCut(t);
      assert t[..j] == s[..j];
      forall k | 0 <= k < |s| - j ensures IsSpace(s[j..][k]) {
        if k < |t| - j { assert s[j..][k] == t[j..][k]; }
      }
    } else {
      j := |s|;
      assert s[..|s|] == s;
    }
  }

  /** `Trim(s)` is `s[i..j]` with whitespace before `i` and after `j`, and none at its own ends. */
  lemma TrimCut(s: string) returns (i: nat, j: nat)
    ensures i <= j <= |s| && Trim(s) == s[i..j] && AllSpace(s[..i]) && AllSpace(s[j..])
    ensures Trimmed(Trim(s))
  {
    i := TrimStartCut(s);
    var t := s[i..];
    var j' := TrimEndCut(t);
    j := i + j';
    assert t[..j'] == s[i..j];
    assert t[j'..] == s[j..];
    assert Trim(s) == s[i..j];
    assert j' == 0 || t[j' - 1] == s[j - 1];
    assert j' == 0 || t[0] == s[i];
  }

  /**
   * `Trim(s)` is the slice of `s` left after removing a whitespace prefix and
   * a whitespace suffix, and it has no whitespace at either end.
   */
  lemma TrimSpec(s: string)
    ensures exists i, j :: 0 <= i <= j <= |s| && Trim(s) == s[i..j] && AllSpace(s[..i]) && AllSpace(s[j..])
    ensures Trimmed(Trim(s))
  {
    var i, j := TrimCut(s);
  }

  lemma {:induction false} TrimOfTrimmed(s: string)
    requires Trimmed(s)
    ensures Trim(s) == s
  {
  }

  lemma TrimIdempotent(s: string)
    ensures Trim(Trim(s)) == Trim(s)
  {
    TrimSpec(s);
    TrimOfTrimmed(Trim(s));
  }

  /** `Trim(s)` is empty exactly when `s` is all whitespace. */
  lemma TrimEmptyIff(s: string)
    ensures Trim(s) == [] <==> AllSpace(s)
  {
    var i, j := TrimCut(s);
    if Trim(s) == [] {
      forall k | 0 <= k < |s| ensures IsSpace(s[k]) {
        if k < i { assert s[k] == s[..i][k]; } else { assert s[k] == s[j..][k - j]; }
      }
    }
    if Trim(s) != [] {
      assert Trim(s)[0] == s[i];
      assert !IsSpace(s[i]);
    }
  }

  lemma LowerKeepsSpace(c: char)
    ensures IsSpace(Lower(c)) == IsSpace(c)
    ensures IsSpace(Upper(c)) == IsSpace(c)
  {
  }

  // ---------------------------------------------------------------------
  // normalizeAlbumName

  /**
   * The storage key for an album name: trimmed, then lower-cased. The key
   * has whitespace at neither end and no upper-case ASCII letter, and it is
   * the lower-casing of a slice of `name` cut between whitespace runs.
   */
  function NormalizeAlbumName(name: string): (key: string)
    ensures Trimmed(key)
    ensures forall k | 0 <= k < |key| :: !IsUpperAscii(key[k])
    ensures exists i, j :: 0 <= i <= j <= |name| && key == LowerStr(name[i..j]) && AllSpace(name[..i]) && AllSpace(name[j..])
  {
    TrimSpec(name);
    LowerTrimmed(Trim(name));
    LowerStr(Trim(name))
  }

  lemma LowerTrimmed(t: string)
    requires Trimmed(t)
    ensures Trimmed(LowerStr(t))
  {
    if t != [] {
      LowerKeepsSpace(t[0]);
      LowerKeepsSpace(t[|t| - 1]);
    }
  }

  /** Normalising a key a second time changes nothing. */
  lemma NormalizeIdempotent(name: string)
    ensures NormalizeAlbumName(NormalizeAlbumName(name)) == NormalizeAlbumName(name)
  {
    var k := NormalizeAlbumName(name);
    TrimOfTrimmed(k);
    assert LowerStr(k) == k;
  }

  /** `y` agrees with `x` except that some characters were upper-cased. */
  ghost predicate CaseVariant(x: string, y: string) {
    |x| == |y| && forall i | 0 <= i < |x| :: y[i] == x[i] || y[i] == Upper(x[i])
  }

  lemma {:induction false} TrimStartCaseVariant(x: string, y: string)
    requires CaseVariant(x, y)
    ensures CaseVariant(TrimStart(x), TrimStart(y))
    decreases |x|
  {
    if |x| > 0 {
      LowerKeepsSpace(x[0]);
      if IsSpace(x[0]) {
        assert IsSpace(y[0]);
        assert CaseVariant(x[1..], y[1..]) by {
          forall i | 0 <= i < |x| - 1 ensures y[1..][i] == x[1..][i] || y[1..][i] == Upper(x[1..][i]) {
            assert y[1..][i] == y[i + 1] && x[1..][i] == x[i + 1];
          }
        }
        TrimStartCaseVariant(x[1..], y[1..]);
      } else {
        assert !IsSpace(y[0]);
      }
    }
  }

  lemma {:induction false} TrimEndCaseVariant(x: string, y: string)
    requires CaseVariant(x, y)
    ensures CaseVariant(TrimEnd(x), TrimEnd(y))
    decreases |x|
  {
    if |x| > 0 {
      LowerKeepsSpace(x[|x| - 1]);
      if IsSpace(x[|x| - 1]) {
        assert IsSpace(y[|y| - 1]);
        var x', y' := x[..|x| - 1], y[..|y| - 1];
        assert CaseVariant(x', y') by {
          forall i | 0 <= i < |x'| ensures y'[i] == x'[i] || y'[i] == Upper(x'[i]) {
            assert y'[i] == y[i] && x'[i] == x[i];
          }
        }
        TrimEndCaseVariant(x', y');
      } else {
        assert !IsSpace(y[|y| - 1]);
      }
    }
  }

  /** Names that differ only by upper-casing give the same key. */
  lemma NormalizeCaseVariant(x: string, y: string)
    requires CaseVariant(x, y)
    ensures NormalizeAlbumName(y) == NormalizeAlbumName(x)
  {
    TrimStartCaseVariant(x, y);
    TrimEndCaseVariant(TrimStart(x), TrimStart(y));
    var tx, ty := Trim(x), Trim(y);
    assert CaseVariant(tx, ty);
    forall i | 0 <= i < |tx| ensures LowerStr(ty)[i] == LowerStr(tx)[i] {
    }
  }

  // ---------------------------------------------------------------------
  // capitalizeAlbumName: split(" "), upper-case the first character of
  // each piece, join(" ")

  /** `s.split(sep)` for a one-character separator. */
  function Split(s: string, sep: char): (words: seq<string>)
    ensures |words| >= 1
  {
    if s == [] then [""]
    else
      var rest := Split(s[1..], sep);
      if s[0] == sep then [""] + rest else [[s[0]] + rest[0]] + rest[1..]
  }

  /** `words.join(sep)`. */
  function Join(words: seq<string>, sep: char): string
    requires |words| >= 1
  {
    if |words| == 1 then words[0] else words[0] + [sep] + Join(words[1..], sep)
  }

  /** Splitting and re-joining gives back the string, and no piece holds the separator. */
  lemma {:induction false} JoinSplit(s: string, sep: char)
    ensures Join(Split(s, sep), sep) == s
    ensures forall w | w in Split(s, sep) :: sep !in w
  {
    if s != [] {
      var rest := Split(s[1..], sep);
      JoinSplit(s[1..], sep);
      if s[0] == sep {
        assert ([""] + rest)[1..] == rest;
      } else {
        var ws := [[s[0]] + rest[0]] + rest[1..];
        assert ws[1..] == rest[1..];
        if |rest| > 1 {
          assert Join(rest, sep) == rest[0] + [sep] + Join(rest[1..], sep);
        }
        assert Join(ws, sep) == s;
        forall w | w in ws ensures sep !in w {
          if w != ws[0] { assert w in rest; }
        }
      }
    }
  }

  /** `word.charAt(0).toUpperCase() + word.slice(1)`. */
  function CapitalizeWord(w: string): string {
    if w == [] then [] else [Upper(w[0])] + w[1..]
  }

  function MapCapitalize(words: seq<string>): (r: seq<string>)
    ensures |r| == |words|
  {
    if words == [] then [] else [CapitalizeWord(words[0])] + MapCapitalize(words[1..])
  }

  /** True at the positions where a space-separated piece of `s` starts. */
  predicate WordStart(s: string, i: int)
    requires 0 <= i < |s|
  {
    i == 0 || s[i - 1] == ' '
  }

  /** `c` is `j` with the first character of every space-separated piece upper-cased. */
  predicate CapitalizedFrom(j: string, c: string) {
    |c| == |j| && forall i | 0 <= i < |j| :: c[i] == if WordStart(j, i) then Upper(j[i]) else j[i]
  }

  lemma CapitalizeWordFrom(w: string)
    requires ' ' !in w
    ensures CapitalizedFrom(w, CapitalizeWord(w))
  {
    var cw := CapitalizeWord(w);
    forall i | 0 <= i < |w| ensures cw[i] == if WordStart(w, i) then Upper(w[i]) else w[i] {
      if i > 0 { assert w[i - 1] in w; }
    }
  }

  lemma CapitalizedFromCons(w: string, cw: string, j: string, c: string)
    requires ' ' !in w && CapitalizedFrom(w, cw) && CapitalizedFrom(j, c)
    ensures CapitalizedFrom(w + " " + j, cw + " " + c)
  {
    var J, C := w + " " + j, cw + " " + c;
    forall i | 0 <= i < |J| ensures C[i] == if WordStart(J, i) then Upper(J[i]) else J[i] {
      if i < |w| {
        assert J[i] == w[i] && C[i] == cw[i];
        if i > 0 { assert J[i - 1] == w[i - 1]; }
      } else if i > |w| {
        var k := i - |w| - 1;
        assert J[i] == j[k] && C[i] == c[k];
        assert WordStart(J, i) == WordStart(j, k);
      }
    }
  }

  lemma {:induction false} JoinCapitalizeAt(words: seq<string>)
    requires |words| >= 1
    requires forall w | w in words :: ' ' !in w
    ensures CapitalizedFrom(Join(words, ' '), Join(MapCapitalize(words), ' '))
  {
    CapitalizeWordFrom(words[0]);
    if |words| == 1 {
      assert MapCapitalize(words) == [CapitalizeWord(words[0])];
    } else {
      var rest := words[1..];
      assert forall v | v in rest :: v in words;
      JoinCapitalizeAt(rest);
      assert MapCapitalize(words)[1..] == MapCapitalize(rest);
      CapitalizedFromCons(words[0], CapitalizeWord(words[0]), Join(rest, ' '), Join(MapCapitalize(rest), ' '));
    }
  }

  /**
   * `capitalizeAlbumName`: every character that starts a space-separated
   * piece is upper-cased; every other character is kept.
   */
  function CapitalizeAlbumName(name: string): (display: string)
    ensures |display| == |name|
    ensures forall i | 0 <= i < |name| :: display[i] == if WordStart(name, i) then Upper(name[i]) else name[i]
  {
    var words := Split(name, ' ');
    JoinSplit(name, ' ');
    JoinCapitalizeAt(words);
    Join(MapCapitalize(words), ' ')
  }

  /**
   * The key under which a rating is saved (the normalised display name)
   * equals the key the search looked up (the normalised input).
   */
  lemma SavedKeyIsLookedUpKey(input: string)
    ensures NormalizeAlbumName(CapitalizeAlbumName(input)) == NormalizeAlbumName(input)
  {
    NormalizeCaseVariant(input, CapitalizeAlbumName(input));
  }

  // ---------------------------------------------------------------------
  // capitalizeFirst

  /**
   * `capitalizeFirst`: `None` stands for a non-string argument. A non-empty
   * string gets its first character upper-cased and the rest lower-cased.
   */
  function CapitalizeFirst(str: Option<string>): (r: string)
    ensures str.None? || str.value == [] ==> r == []
    ensures str.Some? && str.value != [] ==>
      |r| == |str.value| && r[0] == Upper(str.value[0]) && r[1..] == LowerStr(str.value[1..])
  {
    if str.Some? && |str.value| > 0 then [Upper(str.value[0])] + LowerStr(str.value[1..]) else ""
  }

  lemma UpperLowerAgree(c: char, d: char)
    ensures Upper(c) == Upper(d) <==> Lower(c) == Lower(d)
  {
  }

  /** Two non-empty strings get the same label exactly when they agree up to case. */
  lemma CapitalizeFirstCaseInsensitive(x: string, y: string)
    requires x != [] && y != []
    ensures CapitalizeFirst(Some(x)) == CapitalizeFirst(Some(y)) <==> LowerStr(x) == LowerStr(y)
  {
    var cx, cy := CapitalizeFirst(Some(x)), CapitalizeFirst(Some(y));
    UpperLowerAgree(x[0], y[0]);
    if cx == cy {
      assert |x| == |y|;
      forall i | 0 <= i < |x| ensures LowerStr(x)[i] == LowerStr(y)[i] {
        if i == 0 { assert cx[0] == cy[0]; } else { assert cx[1..][i - 1] == cy[1..][i - 1]; }
      }
    }
    if LowerStr(x) == LowerStr(y) {
      assert |x| == |y|;
      assert LowerStr(x)[0] == LowerStr(y)[0];
      forall i | 0 <= i < |x| ensures cx[i] == cy[i] {
        if i > 0 { assert LowerStr(x)[i] == LowerStr(y)[i]; assert cx[i] == cx[1..][i - 1]; assert cy[i] == cy[1..][i - 1]; }
      }
    }
  }

  // ---------------------------------------------------------------------
  // normalizeGenre

  const RapSynonyms: seq<string> := ["rap", "hip hop", "hip-hop", "hiphop", "hip-hop/rap"]
  const RnbSynonyms: seq<string> := ["r&b", "rnb", "rhythm and blues"]
  const ElectronicSynonyms: seq<string> := ["electronic", "edm", "dance"]
  const UnknownGenre: string := "Unknown Genre"

  /**
   * `normalizeGenre`: an absent or empty genre becomes "Unknown Genre"; a
   * synonym, compared trimmed and case-insensitively, becomes its canonical
   * label; anything else comes back trimmed with its case unchanged.
   */
  function NormalizeGenre(genre: Option<string>): (name: string)
    ensures genre.None? || genre.value == [] ==> name == UnknownGenre
    ensures genre.Some? && genre.value != [] ==>
      var g := LowerStr(Trim(genre.value));
      (name == "Rap" <==> g in RapSynonyms) &&
      (name == "R&B" <==> g in RnbSynonyms) &&
      (name == "Electronic" <==> g in ElectronicSynonyms) &&
      (g !in RapSynonyms && g !in RnbSynonyms && g !in ElectronicSynonyms ==> name == Trim(genre.value))
  {
    LabelsLower();
    if genre.None? || genre.value == [] then UnknownGenre
    else
      var g := LowerStr(Trim(genre.value));
      if g in RapSynonyms then "Rap"
      else if g in RnbSynonyms then "R&B"
      else if g in ElectronicSynonyms then "Electronic"
      else Trim(genre.value)
  }

  /** The canonical labels lower-case to their own entries in the synonym lists. */
  lemma LabelsLower()
    ensures LowerStr("Rap") == "rap" && LowerStr("R&B") == "r&b" && LowerStr("Electronic") == "electronic"
  {
    assert LowerStr("Rap") == "rap";
    assert LowerStr("R&B") == "r&b";
    assert LowerStr("Electronic") == "electronic";
  }

  /** The genre label is empty exactly for a non-empty, all-whitespace genre. */
  lemma NormalizeGenreEmptyIff(genre: Option<string>)
    ensures NormalizeGenre(genre) == [] <==> genre.Some? && genre.value != [] && AllSpace(genre.value)
  {
    if genre.Some? && genre.value != [] {
      TrimEmptyIff(genre.value);
      var g := LowerStr(Trim(genre.value));
      if Trim(genre.value) == [] {
        assert g == [];
      }
    }
  }

  lemma RapIsFixed()
    ensures NormalizeGenre(Some("Rap")) == "Rap"
  {
    TrimOfTrimmed("Rap");
    assert LowerStr("Rap") == "rap";
  }

  lemma RnbIsFixed()
    ensures NormalizeGenre(Some("R&B")) == "R&B"
  {
    TrimOfTrimmed("R&B");
    assert LowerStr("R&B") == "r&b";
  }

  lemma ElectronicIsFixed()
    ensures NormalizeGenre(Some("Electronic")) == "Electronic"
  {
    TrimOfTrimmed("Electronic");
    assert LowerStr("Electronic") == "electronic";
  }

  lemma UnknownIsFixed()
    ensures NormalizeGenre(Some(UnknownGenre)) == UnknownGenre
  {
    TrimOfTrimmed(UnknownGenre);
    assert LowerStr(UnknownGenre) == "unknown genre";
  }

  /** Normalising a non-empty genre label again gives the same label. */
  lemma NormalizeGenreIdempotent(genre: Option<string>)
    requires NormalizeGenre(genre) != []
    ensures NormalizeGenre(Some(NormalizeGenre(genre))) == NormalizeGenre(genre)
  {
    if genre.None? || genre.value == [] {
      UnknownIsFixed();
    } else {
      var g := LowerStr(Trim(genre.value));
      if g in RapSynonyms {
        RapIsFixed();
      } else if g in RnbSynonyms {
        RnbIsFixed();
      } else if g in ElectronicSynonyms {
        ElectronicIsFixed();
      } else {
        TrimIdempotent(genre.value);
      }
    }
  }

  // ---------------------------------------------------------------------
  // escapeHTML

  function EscapeChar(c: char): string {
    if c == '&' then "&amp;"
    else if c == '<' then "&lt;"
    else if c == '>' then "&gt;"
    else if c == '\'' then "&#39;"
    else if c == '"' then "&quot;"
    else [c]
  }

  function EscapeStr(s: string): string {
    if s == [] then [] else EscapeChar(s[0]) + EscapeStr(s[1..])
  }

  /** The markup characters `escapeHTML` removes from its output. */
  predicate IsMarkup(c: char) {
    c == '<' || c == '>' || c == '"' || c == '\''
  }

  /** The character an entity (or a plain character) at the start of `s` stands for, and its length. */
  function EntityAt(s: string): (d: (char, nat))
    requires s != []
    ensures 1 <= d.1 <= |s|
  {
    if s[0] != '&' then (s[0], 1)
    else if |s| >= 5 && s[1] == 'a' && s[2] == 'm' && s[3] == 'p' && s[4] == ';' then ('&', 5)
    else if |s| >= 4 && s[1] == 'l' && s[2] == 't' && s[3] == ';' then ('<', 4)
    else if |s| >= 4 && s[1] == 'g' && s[2] == 't' && s[3] == ';' then ('>', 4)
    else if |s| >= 5 && s[1] == '#' && s[2] == '3' && s[3] == '9' && s[4] == ';' then ('\'', 5)
    else if |s| >= 6 && s[1] == 'q' && s[2] == 'u' && s[3] == 'o' && s[4] == 't' && s[5] == ';' then ('"', 6)
    else ('&', 1)
  }

  /** Decodes the five entities `escapeHTML` produces; the partner of `EscapeStr`. */
  function Unescape(s: string): string
    decreases |s|
  {
    if s == [] then [] else var d := EntityAt(s); [d.0] + Unescape(s[d.1..])
  }

  lemma {:induction false} EscapeStrNoMarkup(s: string)
    ensures forall k | 0 <= k < |EscapeStr(s)| :: !IsMarkup(EscapeStr(s)[k])
  {
    if s != [] {
      EscapeStrNoMarkup(s[1..]);
      var e, r := EscapeChar(s[0]), EscapeStr(s[1..]);
      forall k | 0 <= k < |e + r| ensures !IsMarkup((e + r)[k]) {
        if k < |e| { assert (e + r)[k] == e[k]; } else { assert (e + r)[k] == r[k - |e|]; }
      }
    }
  }

  /** Every `&` in the escaped text opens one of the five entities; none stands alone. */
  lemma {:induction false} EscapeStrAmpersands(s: string)
    ensures forall k | 0 <= k < |EscapeStr(s)| && EscapeStr(s)[k] == '&' :: EntityAt(EscapeStr(s)[k..]).1 > 1
  {
    if s != [] {
      EscapeStrAmpersands(s[1..]);
      var e, r := EscapeChar(s[0]), EscapeStr(s[1..]);
      forall k | 0 <= k < |e + r| && (e + r)[k] == '&' ensures EntityAt((e + r)[k..]).1 > 1 {
        if k < |e| {
          assert (e + r)[k] == e[k];
          assert k == 0 && |e| > 1;
          assert (e + r)[k..] == e + r;
          assert EntityAt(e + r) == (s[0], |e|);
        } else {
          assert (e + r)[k..] == r[k - |e|..];
        }
      }
    }
  }

  lemma UnescapeEscapeChar(c: char, r: string)
    ensures Unescape(EscapeChar(c) + r) == [c] + Unescape(r)
  {
    var e := EscapeChar(c);
    var t := e + r;
    assert EntityAt(t) == (c, |e|);
    assert t[|e|..] == r;
  }

  lemma {:induction false} UnescapeEscape(s: string)
    ensures Unescape(EscapeStr(s)) == s
  {
    if s != [] {
      UnescapeEscape(s[1..]);
      UnescapeEscapeChar(s[0], EscapeStr(s[1..]));
    }
  }

  /**
   * `escapeHTML`: `None` stands for a non-string argument, which gives "".
   * The output holds none of `< > " '`, every `&` in it opens an entity,
   * and decoding the entities gives the input back, so every other
   * character is kept, in order.
   */
  function EscapeHtml(str: Option<string>): (r: string)
    ensures str.None? ==> r == []
    ensures forall k | 0 <= k < |r| :: !IsMarkup(r[k])
    ensures forall k | 0 <= k < |r| && r[k] == '&' :: EntityAt(r[k..]).1 > 1
    ensures str.Some? ==> Unescape(r) == str.value
  {
    if str.None? then ""
    else
      EscapeStrNoMarkup(str.value);
      EscapeStrAmpersands(str.value);
      UnescapeEscape(str.value);
      EscapeStr(str.value)
  }

  // ---------------------------------------------------------------------
  // Reading text back from inserted markup

  predicate IsAsciiLetter(c: char) { 'a' <= c <= 'z' || 'A' <= c <= 'Z' }

  /** What follows the first `>` of `s`, or nothing when `s` has none. */
  function AfterTag(s: string): (rest: string)
    ensures |rest| <= |s|
  {
    if |s| == 0 then [] else if s[0] == '>' then s[1..] else AfterTag(s[1..])
  }

  /**
   * The `textContent` of a fragment assigned to `innerHTML`, for the part of
   * HTML parsing this page meets: `<` followed by a letter or `/` opens a tag
   * that runs to the next `>` and gives no text; an entity that `EntityAt`
   * knows stands for its character; every other character stands for itself.
   */
  function ParsedText(html: string): string
    decreases |html|
  {
    if |html| == 0 then []
    else if html[0] == '<' && |html| > 1 && (IsAsciiLetter(html[1]) || html[1] == '/') then
      ParsedText(AfterTag(html[1..]))
    else
      var d := EntityAt(html); [d.0] + ParsedText(html[d.1..])
  }

  /** Without `<`, reading the text back only decodes the entities. */
  lemma {:induction false} ParsedTextWithoutTags(s: string)
    requires forall k | 0 <= k < |s| :: s[k] != '<'
    ensures ParsedText(s) == Unescape(s)
  {
    if |s| > 0 {
      var d := EntityAt(s);
      assert forall k | 0 <= k < |s[d.1..]| :: s[d.1..][k] == s[d.1 + k];
      ParsedTextWithoutTags(s[d.1..]);
    }
  }

  /** Without `<` or `&`, the text read back is the fragment itself. */
  lemma {:induction false} PlainTextReadsBack(s: string)
    requires forall k | 0 <= k < |s| :: s[k] != '<' && s[k] != '&'
    ensures ParsedText(s) == s
  {
    if |s| > 0 {
      assert EntityAt(s) == (s[0], 1);
      assert forall k | 0 <= k < |s[1..]| :: s[1..][k] == s[1 + k];
      PlainTextReadsBack(s[1..]);
    }
  }

  /** Escaped text is read back as it was before escaping. */
  lemma EscapedTextReadsBack(s: string)
    ensures ParsedText(EscapeHtml(Some(s))) == s
  {
    ParsedTextWithoutTags(EscapeHtml(Some(s)));
  }
}
